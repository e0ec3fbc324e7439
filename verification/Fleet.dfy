/** What one Fleet reconcile does to the stored EdgeSites, entry by entry. */
module Fleet {
  import opened Text
  import opened Calls
  import opened Sites

  datatype Entry = Entry(server: string, user: string, role: string, name: string, ran: nat)

  datatype FleetObject = FleetObject(ns: string, name: string, entries: seq<Entry>)

  /** How the calls of one pass end: reading and writing each named site, listing, deleting each named site. */
  datatype PassCalls = PassCalls(get: string -> bool, write: string -> Outcome, list: bool, delete: string -> Outcome) {
    ghost predicate AllDone() {
      list && forall n: string :: get(n) && write(n).Done? && delete(n).Done?
    }
  }

  function ReplaceAll(s: string, from: char, to: char): string {
    if |s| == 0 then "" else [if s[0] == from then to else s[0]] + ReplaceAll(s[1..], from, to)
  }

  function EntryName(e: Entry): string {
    if e.name != "" then e.name else "site-" + ReplaceAll(e.server, '.', '-')
  }

  /** The declared sites by name; entries without a server are skipped, later entries win. */
  function Desired(entries: seq<Entry>): map<string, Entry> {
    if |entries| == 0 then map[]
    else
      var e := entries[|entries| - 1];
      var before := Desired(entries[..|entries| - 1]);
      if e.server == "" then before else before[EntryName(e) := e]
  }

  function RoleOf(e: Entry): string {
    if e.role == "" then "upf-only" else e.role
  }

  function Unaddressed(server: string, user: string, role: string, ran: nat, colocated: bool): Spec {
    Spec(server, user, role, ran, colocated, "", "", "", "", "", "", "", "", "", "", "", "", "")
  }

  /** The content an entry asks for: a new object, or the stored one with its declared fields reasserted. */
  function Applied(current: Option<Body>, fleet: string, e: Entry): Body {
    match current
    case None => Body(Some(fleet), false, false, Unaddressed(e.server, e.user, RoleOf(e), e.ran, false))
    case Some(b) => b.(fleet := Some(fleet),
                       spec := b.spec.(server := e.server, user := e.user, role := RoleOf(e), ran := e.ran))
  }

  function Lookup(bodies: Bodies, k: Key): Option<Body> {
    if k in bodies then Some(bodies[k]) else None
  }

  predicate Prunable(b: Body, fleet: string) {
    b.fleet == Some(fleet) && !b.deleting
  }

  /** What a pass leaves under one key. */
  function After(bodies: Bodies, f: FleetObject, calls: PassCalls, k: Key): Option<Body> {
    var desired := Desired(f.entries);
    if k.ns == f.ns && k.name in desired then
      if calls.get(k.name) && calls.write(k.name).Effective()
      then Some(Applied(Lookup(bodies, k), f.name, desired[k.name])) else Lookup(bodies, k)
    else if k.ns == f.ns && k in bodies && Prunable(bodies[k], f.name) && calls.list
      && calls.delete(k.name).Effective() then
      if bodies[k].held then Some(bodies[k].(deleting := true)) else None
    else Lookup(bodies, k)
  }

  ghost predicate IsPass(before: Bodies, after: Bodies, f: FleetObject, calls: PassCalls) {
    forall k: Key :: Lookup(after, k) == After(before, f, calls, k)
  }

  lemma SameLookups(a: Bodies, b: Bodies)
    requires forall k: Key :: Lookup(a, k) == Lookup(b, k)
    ensures a == b
  {
    forall k: Key ensures k in a <==> k in b {
      assert Lookup(a, k) == Lookup(b, k);
    }
    forall k: Key | k in a ensures a[k] == b[k] {
      assert Lookup(a, k) == Lookup(b, k);
    }
  }

  /**
   * With all calls succeeding, the live sites labelled for the fleet are exactly the declared names (those already
   * being deleted stay on their way out), and every declared name has an object.
   */
  lemma LiveSitesAreDeclared(before: Bodies, after: Bodies, f: FleetObject, calls: PassCalls, k: Key)
    requires IsPass(before, after, f, calls) && calls.AllDone() && k.ns == f.ns
    ensures (k in after && after[k].fleet == Some(f.name) && !after[k].deleting)
       <==> (k.name in Desired(f.entries) && !(k in before && before[k].deleting))
    ensures k.name in Desired(f.entries) ==> k in after && after[k].fleet == Some(f.name)
  {
    assert Lookup(after, k) == After(before, f, calls, k);
  }

  predicate NotOfFleet(before: Bodies, f: FleetObject, k: Key) {
    k.ns != f.ns || (k.name !in Desired(f.entries) && !(k in before && before[k].fleet == Some(f.name)))
  }

  /** A site neither labelled for the fleet nor named in it is left alone, whatever the calls do. */
  lemma OthersUntouched(before: Bodies, after: Bodies, f: FleetObject, calls: PassCalls, k: Key)
    requires IsPass(before, after, f, calls) && NotOfFleet(before, f, k)
    ensures Lookup(after, k) == Lookup(before, k)
  {
    assert Lookup(after, k) == After(before, f, calls, k);
  }

  /** A second pass with all calls succeeding changes nothing. */
  lemma PassIdempotent(before: Bodies, after: Bodies, again: Bodies, f: FleetObject, calls: PassCalls, later: PassCalls)
    requires IsPass(before, after, f, calls) && IsPass(after, again, f, later)
    requires calls.AllDone() && later.AllDone()
    ensures again == after
  {
    forall k: Key ensures Lookup(again, k) == Lookup(after, k) {
      assert Lookup(after, k) == After(before, f, calls, k);
      assert Lookup(again, k) == After(after, f, later, k);
    }
    SameLookups(again, after);
  }

  /** What a pass does to a site depends only on the calls about that site, and on the listing. */
  lemma EntriesIsolated(before: Bodies, a: Bodies, b: Bodies, f: FleetObject, callsA: PassCalls, callsB: PassCalls,
                        k: Key)
    requires IsPass(before, a, f, callsA) && IsPass(before, b, f, callsB)
    requires callsA.get(k.name) == callsB.get(k.name) && callsA.write(k.name) == callsB.write(k.name)
    requires callsA.delete(k.name) == callsB.delete(k.name)
    requires callsA.list == callsB.list || k.name in Desired(f.entries)
    ensures Lookup(a, k) == Lookup(b, k)
  {
    assert Lookup(a, k) == After(before, f, callsA, k);
    assert Lookup(b, k) == After(before, f, callsB, k);
  }

  // ----- the declared set -----

  predicate Declares(entries: seq<Entry>, i: nat, name: string)
    requires i < |entries|
  {
    entries[i].server != "" && EntryName(entries[i]) == name
  }

  ghost predicate DeclaresLast(entries: seq<Entry>, i: nat, name: string) {
    i < |entries| && Declares(entries, i, name) && forall j: nat | i < j < |entries| :: !Declares(entries, j, name)
  }

  lemma LastInFront(entries: seq<Entry>, i: nat, name: string)
    requires |entries| > 0 && !Declares(entries, |entries| - 1, name) && DeclaresLast(entries[..|entries| - 1], i, name)
    ensures DeclaresLast(entries, i, name) && entries[i] == entries[..|entries| - 1][i]
  {
    var front := entries[..|entries| - 1];
    forall j: nat | i < j < |entries| ensures !Declares(entries, j, name) {
      assert j < |front| ==> front[j] == entries[j] && !Declares(front, j, name);
    }
  }

  /** A name is declared by its last entry. */
  lemma {:induction false} DesiredIsLast(entries: seq<Entry>, name: string)
    ensures name in Desired(entries) <==> exists i: nat :: i < |entries| && Declares(entries, i, name)
    ensures name in Desired(entries) ==> exists i: nat ::
      DeclaresLast(entries, i, name) && Desired(entries)[name] == entries[i]
  {
    if |entries| > 0 {
      var n := |entries| - 1;
      var front := entries[..n];
      DesiredIsLast(front, name);
      if Declares(entries, n, name) {
        assert DeclaresLast(entries, n, name) && Desired(entries)[name] == entries[n];
      } else if name in Desired(entries) {
        var i: nat :| DeclaresLast(front, i, name) && Desired(front)[name] == front[i];
        LastInFront(entries, i, name);
      } else if i: nat :| i < |entries| && Declares(entries, i, name) {
        assert Declares(front, i, name);
        assert false;
      }
    }
  }

  ghost predicate DistinctNames(entries: seq<Entry>) {
    forall i: nat, j: nat :: i < j < |entries| && entries[i].server != "" ==>
      !Declares(entries, j, EntryName(entries[i]))
  }

  lemma DesiredOfDistinct(entries: seq<Entry>, i: nat)
    requires DistinctNames(entries) && i < |entries| && entries[i].server != ""
    ensures EntryName(entries[i]) in Desired(entries) && Desired(entries)[EntryName(entries[i])] == entries[i]
  {
    var name := EntryName(entries[i]);
    DesiredIsLast(entries, name);
    assert Declares(entries, i, name);
    assert forall j: nat | i < j < |entries| :: !Declares(entries, j, name);
    var k: nat :| DeclaresLast(entries, k, name) && Desired(entries)[name] == entries[k];
  }

  lemma DesiredWithin(entries: seq<Entry>, others: seq<Entry>, name: string)
    requires DistinctNames(others) && multiset(entries) == multiset(others)
    requires name in Desired(entries)
    ensures name in Desired(others) && Desired(others)[name] == Desired(entries)[name]
  {
    DesiredIsLast(entries, name);
    var i: nat :| DeclaresLast(entries, i, name) && Desired(entries)[name] == entries[i];
    assert entries[i] in multiset(entries);
    assert entries[i] in multiset(others);
    var j: nat :| j < |others| && others[j] == entries[i];
    DesiredOfDistinct(others, j);
  }

  /** Reordering distinctly named entries declares the same sites, so the same pass. */
  lemma OrderIrrelevant(entries: seq<Entry>, others: seq<Entry>)
    requires DistinctNames(entries) && DistinctNames(others) && multiset(entries) == multiset(others)
    ensures Desired(entries) == Desired(others)
  {
    forall name: string ensures name in Desired(entries) <==> name in Desired(others) {
      if name in Desired(entries) { DesiredWithin(entries, others, name); }
      if name in Desired(others) { DesiredWithin(others, entries, name); }
    }
    forall name: string | name in Desired(entries) ensures Desired(entries)[name] == Desired(others)[name] {
      DesiredWithin(entries, others, name);
    }
  }

  // ----- what is stored -----

  /**
   * The object is labelled for the fleet and says what the entry says, with "upf-only" for no role. One that was there
   * keeps everything else: how it is colocated, whether it is held or deleted, and every address. A new one is not
   * colocated, held or deleted, and has no address.
   */
  predicate AsDeclared(before: Option<Body>, after: Body, fleet: string, e: Entry) {
    && after.fleet == Some(fleet)
    && after.spec.server == e.server && after.spec.user == e.user && after.spec.ran == e.ran
    && after.spec.role == (if e.role != "" then e.role else "upf-only")
    && match before
       case Some(b) =>
         after.held == b.held && after.deleting == b.deleting && after.spec.colocated == b.spec.colocated
         && SameAddressing(after.spec, b.spec)
       case None => !after.held && !after.deleting && !after.spec.colocated && NoAddressing(after.spec)
  }

  predicate SameAddressing(a: Spec, b: Spec) {
    && a.podCIDR == b.podCIDR && a.uePool == b.uePool && a.sliceSD == b.sliceSD && a.egressNic == b.egressNic
    && a.accessCIDR == b.accessCIDR && a.coreCIDR == b.coreCIDR && a.accessGw == b.accessGw && a.coreGw == b.coreGw
    && a.coreNextHop == b.coreNextHop && a.gnbIP == b.gnbIP && a.ranSubnet == b.ranSubnet && a.n2VIP == b.n2VIP
    && a.ranNic == b.ranNic
  }

  predicate NoAddressing(a: Spec) {
    && a.podCIDR == "" && a.uePool == "" && a.sliceSD == "" && a.egressNic == "" && a.accessCIDR == ""
    && a.coreCIDR == "" && a.accessGw == "" && a.coreGw == "" && a.coreNextHop == "" && a.gnbIP == ""
    && a.ranSubnet == "" && a.n2VIP == "" && a.ranNic == ""
  }

  lemma AppliedAsDeclared(before: Option<Body>, fleet: string, e: Entry)
    ensures AsDeclared(before, Applied(before, fleet, e), fleet, e)
  {
  }

  /** Nobody in the fleet declares the object. */
  ghost predicate Undeclared(f: FleetObject, k: Key) {
    k.ns != f.ns || forall i: nat | i < |f.entries| :: !Declares(f.entries, i, k.name)
  }

  predicate Same(before: Bodies, after: Bodies, k: Key) {
    (k in after <==> k in before) && (k in before ==> after[k] == before[k])
  }

  /**
   * What a pass leaves under a key. A declared object is as its last entry declares it, unless its read failed or its
   * write took no effect. An undeclared one that is labelled for the fleet is gone, or on its way out if finalizers
   * hold it, unless the listing failed or its deletion took no effect. Every other object is as it was.
   */
  ghost predicate Leaves(before: Bodies, after: Bodies, f: FleetObject, calls: PassCalls, k: Key) {
    && (forall i: nat | k.ns == f.ns && DeclaresLast(f.entries, i, k.name) ::
          if calls.get(k.name) && calls.write(k.name).Effective()
          then k in after && AsDeclared(Lookup(before, k), after[k], f.name, f.entries[i]) else Same(before, after, k))
    && (Undeclared(f, k) ==>
          if k.ns == f.ns && k in before && before[k].fleet == Some(f.name) && !before[k].deleting
             && calls.list && calls.delete(k.name).Effective()
          then if before[k].held then k in after && after[k] == before[k].(deleting := true) else k !in after
          else Same(before, after, k))
  }

  lemma PassLeaves(before: Bodies, after: Bodies, f: FleetObject, calls: PassCalls, k: Key)
    requires IsPass(before, after, f, calls)
    ensures Leaves(before, after, f, calls, k)
  {
    assert Lookup(after, k) == After(before, f, calls, k);
    DesiredIsLast(f.entries, k.name);
    forall i: nat | k.ns == f.ns && DeclaresLast(f.entries, i, k.name)
      ensures if calls.get(k.name) && calls.write(k.name).Effective()
        then k in after && AsDeclared(Lookup(before, k), after[k], f.name, f.entries[i]) else Same(before, after, k)
    {
      OneLast(f.entries, i, k.name);
      AppliedAsDeclared(Lookup(before, k), f.name, f.entries[i]);
    }
  }

  lemma OneLast(entries: seq<Entry>, i: nat, name: string)
    requires DeclaresLast(entries, i, name)
    ensures name in Desired(entries) && Desired(entries)[name] == entries[i]
  {
    DesiredIsLast(entries, name);
    var j: nat :| DeclaresLast(entries, j, name) && Desired(entries)[name] == entries[j];
    assert i == j;
  }

  // ----- derived names -----

  /** A pinned name stands; else the site is named after its server, with dashes for dots. */
  lemma NameIs(e: Entry)
    ensures e.name != "" ==> EntryName(e) == e.name
    ensures e.name == "" ==>
      && |EntryName(e)| == 5 + |e.server| && EntryName(e)[..5] == "site-"
      && forall i | 0 <= i < |e.server| :: EntryName(e)[5 + i] == if e.server[i] == '.' then '-' else e.server[i]
  {
    if e.name == "" {
      DashesForDots(e.server);
      assert EntryName(e)[..5] == "site-" && EntryName(e)[5..] == ReplaceAll(e.server, '.', '-');
    }
  }

  lemma {:induction false} DashesForDots(s: string)
    ensures |ReplaceAll(s, '.', '-')| == |s|
    ensures forall i | 0 <= i < |s| :: ReplaceAll(s, '.', '-')[i] == if s[i] == '.' then '-' else s[i]
  {
    if |s| > 0 { DashesForDots(s[1..]); }
  }

  predicate SameButDots(x: char, y: char) {
    x == y || (x == '.' && y == '-') || (x == '-' && y == '.')
  }

  /** Texts that differ at most in having '.' for '-'. */
  predicate Alike(s: string, t: string) {
    |s| == |t| && forall i | 0 <= i < |s| :: SameButDots(s[i], t[i])
  }

  lemma AlikeTails(s: string, t: string)
    requires |s| > 0 && |t| > 0
    ensures Alike(s, t) <==> SameButDots(s[0], t[0]) && Alike(s[1..], t[1..])
  {
    if SameButDots(s[0], t[0]) && Alike(s[1..], t[1..]) {
      forall i | 0 <= i < |s| ensures SameButDots(s[i], t[i]) {
        if i > 0 { assert SameButDots(s[1..][i - 1], t[1..][i - 1]); }
      }
    }
    if Alike(s, t) {
      forall i | 0 <= i < |s[1..]| ensures SameButDots(s[1..][i], t[1..][i]) {
        assert SameButDots(s[i + 1], t[i + 1]);
      }
    }
  }

  lemma {:induction false} ReplacedAlikeIff(s: string, t: string)
    ensures ReplaceAll(s, '.', '-') == ReplaceAll(t, '.', '-') <==> Alike(s, t)
  {
    var x, y := ReplaceAll(s, '.', '-'), ReplaceAll(t, '.', '-');
    if |s| > 0 && |t| > 0 {
      ReplacedAlikeIff(s[1..], t[1..]);
      AlikeTails(s, t);
      assert x[1..] == ReplaceAll(s[1..], '.', '-') && y[1..] == ReplaceAll(t[1..], '.', '-');
      assert x == [x[0]] + x[1..] && y == [y[0]] + y[1..];
    } else {
      assert |x| == 0 <==> |s| == 0;
      assert |y| == 0 <==> |t| == 0;
    }
  }

  /** Two unpinned entries fall on one name exactly when their servers differ at most in having '.' for '-'. */
  lemma DerivedNamesCollideIff(d: Entry, e: Entry)
    requires d.name == "" && e.name == ""
    ensures EntryName(d) == EntryName(e) <==> Alike(d.server, e.server)
  {
    ReplacedAlikeIff(d.server, e.server);
    var x, y := ReplaceAll(d.server, '.', '-'), ReplaceAll(e.server, '.', '-');
    assert EntryName(d)[5..] == x && EntryName(e)[5..] == y;
  }

  /** So two unpinned entries with different dash-free servers name different sites. */
  lemma DerivedNamesInjective(d: Entry, e: Entry)
    requires d.name == "" && e.name == "" && '-' !in d.server && '-' !in e.server
    ensures EntryName(d) == EntryName(e) <==> d.server == e.server
  {
    DerivedNamesCollideIff(d, e);
    if EntryName(d) == EntryName(e) {
      forall i | 0 <= i < |d.server| ensures d.server[i] == e.server[i] {
        assert d.server[i] in d.server && e.server[i] in e.server && SameButDots(d.server[i], e.server[i]);
      }
    }
  }

  /** And 10.0 and 10-0 name the same one. */
  lemma DashedServersCollide()
    ensures EntryName(Entry("10.0", "", "", "", 0)) == EntryName(Entry("10-0", "", "", "", 0))
  {
    DerivedNamesCollideIff(Entry("10.0", "", "", "", 0), Entry("10-0", "", "", "", 0));
  }
}

/** The 14-slot pool of N2 addresses: which octets are taken, and which one a site gets. */
module VipPool {
  import opened Text
  import opened Sites
  import opened Collections
  import SiteIndex

  const RESERVED := 240
  const FIRST := 241
  const LAST := 254
  const SLOTS := 14
  const POOL: set<int> := {241, 242, 243, 244, 245, 246, 247, 248, 249, 250, 251, 252, 253, 254}

  predicate InPool(d: int) { FIRST <= d <= LAST }

  /** The last octet of an address text, when all four numbers scan. */
  function OctetOf(vip: string): Option<int> {
    var q := ScanQuad(vip);
    if |q| == 4 then Some(q[3]) else None
  }

  predicate HoldsPoolVip(spec: Spec) {
    spec.n2VIP != "" && OctetOf(spec.n2VIP).Some? && InPool(OctetOf(spec.n2VIP).value)
  }

  /** Does this object stand in the way of `octet` for a site called `name`? */
  predicate Blocks(k: Key, site: Site, name: string, octet: int) {
    k.name != name && site.body.spec.n2VIP != "" && OctetOf(site.body.spec.n2VIP) == Some(octet)
  }

  ghost predicate Taken(sites: Store, listed: bool, name: string, octet: int) {
    octet == RESERVED || (listed && exists k :: k in sites && Blocks(k, sites[k], name, octet))
  }

  function Slot(start: nat, k: nat): int {
    FIRST + (start + k) % SLOTS
  }

  /** The pool seen as text: a base of three numbers and an octet. */
  function Vip(base: string, octet: int): string {
    base + "." + Print(octet)
  }

  datatype Triple = Triple(a: int, b: int, c: int) {
    predicate Fits() { FitsInt64(a) && FitsInt64(b) && FitsInt64(c) }

    function Text(): string { Print(a) + "." + Print(b) + "." + Print(c) }
  }

  ghost predicate IsBase(base: string) {
    exists t: Triple :: t.Fits() && base == t.Text()
  }

  /** The octets re-read from persisted address texts are exactly those allocated. */
  lemma OctetOfVip(base: string, octet: int)
    requires IsBase(base) && FitsInt64(octet)
    ensures OctetOf(Vip(base, octet)) == Some(octet)
  {
    var t: Triple :| t.Fits() && base == t.Text();
    ScanPrintedQuad(t.a, t.b, t.c, octet, "");
    assert Vip(base, octet) == PrintQuad(t.a, t.b, t.c, octet);
    assert PrintQuad(t.a, t.b, t.c, octet) + "" == PrintQuad(t.a, t.b, t.c, octet);
  }

  /** The first free slot in cyclic order from `start`; None when all fourteen octets are taken. */
  ghost predicate IsFirstFree(sites: Store, listed: bool, name: string, start: nat, r: Option<int>) {
    match r
    case Some(octet) =>
      && !Taken(sites, listed, name, octet)
      && exists k :: 0 <= k < SLOTS && octet == Slot(start, k)
                     && forall j | 0 <= j < k :: Taken(sites, listed, name, Slot(start, j))
    case None => forall octet | InPool(octet) :: Taken(sites, listed, name, octet)
  }

  /** Every octet of the pool is probed exactly once, whatever the start. */
  lemma ProbeOrder(start: nat, octet: int)
    requires InPool(octet)
    ensures exists k :: 0 <= k < SLOTS && Slot(start, k) == octet
    ensures forall j, k :: 0 <= j < SLOTS && 0 <= k < SLOTS && Slot(start, j) == Slot(start, k) ==> j == k
  {
    SlotOf(start, octet);
    forall j, k | 0 <= j < SLOTS && 0 <= k < SLOTS && Slot(start, j) == Slot(start, k) ensures j == k {
      SlotsDiffer(start, j, k);
    }
  }

  lemma SlotOf(start: nat, octet: int)
    requires InPool(octet)
    ensures exists k :: 0 <= k < SLOTS && Slot(start, k) == octet
  {
    var k := (octet - FIRST + SLOTS - start % SLOTS) % SLOTS;
    assert Slot(start, k) == octet;
  }

  lemma SlotsDiffer(start: nat, j: nat, k: nat)
    requires j < SLOTS && k < SLOTS && Slot(start, j) == Slot(start, k)
    ensures j == k
  {
    var r := start % SLOTS;
    assert (start + j) % SLOTS == if r + j < SLOTS then r + j else r + j - SLOTS;
    assert (start + k) % SLOTS == if r + k < SLOTS then r + k else r + k - SLOTS;
  }

  /** What a site gets: its own pool address verbatim, else the first free slot, else the .254 fallback. */
  ghost predicate IsAllocation(sites: Store, listed: bool, name: string, current: string, base: string, vip: string) {
    if current != "" && OctetOf(current).Some? && InPool(OctetOf(current).value) then vip == current
    else exists r :: IsFirstFree(sites, listed, name, SiteIndex.Index(name) % SLOTS, r)
                     && vip == Vip(base, if r.Some? then r.value else LAST)
  }

  /** The probe, slot by slot. */
  ghost function FirstFree(sites: Store, listed: bool, name: string, start: nat, k: nat): (r: Option<int>)
    requires k <= SLOTS
    decreases SLOTS - k
  {
    if k == SLOTS then None
    else if !Taken(sites, listed, name, Slot(start, k)) then Some(Slot(start, k))
    else FirstFree(sites, listed, name, start, k + 1)
  }

  ghost function Allocate(sites: Store, listed: bool, name: string, current: string, base: string): string {
    if current != "" && OctetOf(current).Some? && InPool(OctetOf(current).value) then current
    else
      var r := FirstFree(sites, listed, name, SiteIndex.Index(name) % SLOTS, 0);
      Vip(base, if r.Some? then r.value else LAST)
  }

  lemma AllSlots(sites: Store, listed: bool, name: string, start: nat)
    requires forall j | 0 <= j < SLOTS :: Taken(sites, listed, name, Slot(start, j))
    ensures IsFirstFree(sites, listed, name, start, None)
  {
    forall octet | InPool(octet) ensures Taken(sites, listed, name, octet) {
      SlotOf(start, octet);
      var k :| 0 <= k < SLOTS && Slot(start, k) == octet;
    }
  }

  lemma FreeSlot(sites: Store, listed: bool, name: string, start: nat, k: nat)
    requires k < SLOTS && !Taken(sites, listed, name, Slot(start, k))
    requires forall j | 0 <= j < k :: Taken(sites, listed, name, Slot(start, j))
    ensures IsFirstFree(sites, listed, name, start, Some(Slot(start, k)))
  {
  }

  lemma {:induction false} ProbeFrom(sites: Store, listed: bool, name: string, start: nat, k: nat)
    requires k <= SLOTS
    requires forall j | 0 <= j < k :: Taken(sites, listed, name, Slot(start, j))
    ensures IsFirstFree(sites, listed, name, start, FirstFree(sites, listed, name, start, k))
    decreases SLOTS - k
  {
    if k == SLOTS {
      AllSlots(sites, listed, name, start);
    } else if Taken(sites, listed, name, Slot(start, k)) {
      ProbeFrom(sites, listed, name, start, k + 1);
    } else {
      FreeSlot(sites, listed, name, start, k);
    }
  }

  /** The allocator meets its specification. */
  lemma AllocateMeets(sites: Store, listed: bool, name: string, current: string, base: string)
    ensures IsAllocation(sites, listed, name, current, base, Allocate(sites, listed, name, current, base))
  {
    ProbeFrom(sites, listed, name, SiteIndex.Index(name) % SLOTS, 0);
  }

  /** There is exactly one allocation. */
  lemma AllocationUnique(sites: Store, listed: bool, name: string, current: string, base: string, v: string, w: string)
    requires IsAllocation(sites, listed, name, current, base, v)
    requires IsAllocation(sites, listed, name, current, base, w)
    ensures v == w
  {
    if !(current != "" && OctetOf(current).Some? && InPool(OctetOf(current).value)) {
      var start := SiteIndex.Index(name) % SLOTS;
      var r :| IsFirstFree(sites, listed, name, start, r) && v == Vip(base, if r.Some? then r.value else LAST);
      var s :| IsFirstFree(sites, listed, name, start, s) && w == Vip(base, if s.Some? then s.value else LAST);
      FirstFreeUnique(sites, listed, name, start, r, s);
    }
  }

  lemma FirstFreeUnique(sites: Store, listed: bool, name: string, start: nat, r: Option<int>, s: Option<int>)
    requires IsFirstFree(sites, listed, name, start, r) && IsFirstFree(sites, listed, name, start, s)
    ensures r == s
  {
    if r.Some? && s.Some? {
      var j :| 0 <= j < SLOTS && r.value == Slot(start, j) && forall i | 0 <= i < j ::
        Taken(sites, listed, name, Slot(start, i));
      var k :| 0 <= k < SLOTS && s.value == Slot(start, k) && forall i | 0 <= i < k ::
        Taken(sites, listed, name, Slot(start, i));
      assert !(j < k) && !(k < j);
    }
  }

  // ----- pigeonhole -----

  lemma PoolOctets(octet: int)
    ensures octet in POOL <==> InPool(octet)
    ensures |POOL| == SLOTS
  {
  }

  /** All fourteen octets can only be taken when at least fourteen other sites hold them. */
  lemma FullPoolNeedsFourteen(sites: Store, name: string, holders: set<Key>)
    requires holders == set k | k in sites && k.name != name && HoldsPoolVip(sites[k].body.spec)
    requires forall octet | InPool(octet) :: Taken(sites, true, name, octet)
    ensures |holders| >= SLOTS
  {
    forall d | d in POOL ensures exists k :: k in holders && OctetOf(sites[k].body.spec.n2VIP).value == d {
      PoolOctets(d);
      assert Taken(sites, true, name, d);
      var k :| k in sites && Blocks(k, sites[k], name, d);
      assert k in holders;
    }
    var octets := map k | k in holders :: OctetOf(sites[k].body.spec.n2VIP).value;
    PoolOctets(FIRST);
    ImageNoLarger(holders, POOL, octets);
  }

  /** A fresh allocation repeats an address octet already held exactly when the whole pool is taken. */
  lemma RepeatsIffFull(sites: Store, name: string, base: string, vip: string)
    requires IsBase(base) && IsAllocation(sites, true, name, "", base, vip)
    ensures OctetOf(vip).Some? && InPool(OctetOf(vip).value)
    ensures (exists k :: k in sites && Blocks(k, sites[k], name, OctetOf(vip).value))
       <==> forall octet | InPool(octet) :: Taken(sites, true, name, octet)
  {
    var r :| IsFirstFree(sites, true, name, SiteIndex.Index(name) % SLOTS, r)
             && vip == Vip(base, if r.Some? then r.value else LAST);
    var octet := if r.Some? then r.value else LAST;
    OctetOfVip(base, octet);
    if r.None? {
      assert Taken(sites, true, name, LAST);
    } else {
      assert !Taken(sites, true, name, octet);
    }
  }

  /** When the site list cannot be read, the choice ignores every other site. */
  lemma BlindAllocation(sites: Store, name: string, base: string, vip: string)
    requires IsAllocation(sites, false, name, "", base, vip)
    ensures vip == Vip(base, FIRST + SiteIndex.Index(name) % SLOTS)
  {
    var start := SiteIndex.Index(name) % SLOTS;
    var r :| IsFirstFree(sites, false, name, start, r) && vip == Vip(base, if r.Some? then r.value else LAST);
    BlindProbe(sites, name, start, r);
  }

  lemma BlindProbe(sites: Store, name: string, start: nat, r: Option<int>)
    requires start < SLOTS && IsFirstFree(sites, false, name, start, r)
    ensures r == Some(FIRST + start)
  {
    assert !Taken(sites, false, name, LAST);
    var k :| 0 <= k < SLOTS && r.value == Slot(start, k) && forall j | 0 <= j < k ::
      Taken(sites, false, name, Slot(start, j));
    assert !Taken(sites, false, name, Slot(start, 0));
  }

  // ----- two sites that read before either writes -----

  /** The first `n` slots from `start` are all taken. */
  ghost predicate RowTaken(sites: Store, name: string, start: nat, n: nat) {
    forall k | 0 <= k < n :: Taken(sites, true, name, Slot(start, k))
  }

  /** How many slots lie between the two starts, going forward. */
  function Ahead(x: nat, y: nat): (d: nat)
    requires x < SLOTS && y < SLOTS
    ensures d < SLOTS
  {
    if y >= x then y - x else y + SLOTS - x
  }

  lemma SlotShift(x: nat, y: nat, k: nat)
    requires x < SLOTS && y < SLOTS && k < SLOTS
    ensures Slot(y, k) == Slot(x, Ahead(x, y) + k)
    ensures Ahead(x, y) + k >= SLOTS ==> Slot(y, k) == Slot(x, Ahead(x, y) + k - SLOTS)
  {
    var d := Ahead(x, y);
    assert x + d == y || x + d == y + SLOTS;
  }

  ghost predicate SameView(sites: Store, name: string, other: string) {
    forall octet :: Taken(sites, true, name, octet) <==> Taken(sites, true, other, octet)
  }

  lemma NoWrap(sites: Store, name: string, x: nat, y: nat, k: nat)
    requires x < SLOTS && y < SLOTS && k < SLOTS
    requires RowTaken(sites, name, x, Ahead(x, y)) && !Taken(sites, true, name, Slot(y, k))
    ensures Ahead(x, y) + k < SLOTS
  {
    SlotShift(x, y, k);
  }

  lemma TakenUpTo(sites: Store, name: string, x: nat, y: nat, k: nat, j: nat)
    requires x < SLOTS && y < SLOTS && k < SLOTS && j < Ahead(x, y) + k
    requires RowTaken(sites, name, x, Ahead(x, y)) && RowTaken(sites, name, y, k)
    ensures Taken(sites, true, name, Slot(x, j))
  {
    if j >= Ahead(x, y) { SlotShift(x, y, j - Ahead(x, y)); }
  }

  lemma SameRow(sites: Store, name: string, other: string, y: nat, k: nat)
    requires SameView(sites, name, other) && forall j | 0 <= j < k :: Taken(sites, true, other, Slot(y, j))
    ensures RowTaken(sites, name, y, k)
  {
  }

  /** If everything between the starts is taken, the one probe runs into the other. */
  lemma RunsInto(sites: Store, name: string, other: string, x: nat, y: nat, r: Option<int>)
    requires x < SLOTS && y < SLOTS && SameView(sites, name, other)
    requires RowTaken(sites, name, x, Ahead(x, y)) && IsFirstFree(sites, true, other, y, r)
    ensures IsFirstFree(sites, true, name, x, r)
  {
    if r.Some? {
      var k :| 0 <= k < SLOTS && r.value == Slot(y, k) && forall j | 0 <= j < k ::
        Taken(sites, true, other, Slot(y, j));
      SameRow(sites, name, other, y, k);
      NoWrap(sites, name, x, y, k);
      SlotShift(x, y, k);
      forall j: nat | j < Ahead(x, y) + k ensures Taken(sites, true, name, Slot(x, j)) {
        TakenUpTo(sites, name, x, y, k, j);
      }
    }
  }

  /** If there is a free slot before the other's start, the probe ends there. */
  lemma StopsBefore(sites: Store, name: string, x: nat, n: nat, r: Option<int>)
    requires n <= SLOTS && !RowTaken(sites, name, x, n) && IsFirstFree(sites, true, name, x, r)
    ensures r.Some? && exists k :: 0 <= k < n && r.value == Slot(x, k)
  {
    var i :| 0 <= i < n && !Taken(sites, true, name, Slot(x, i));
    if r.Some? {
      var k :| 0 <= k < SLOTS && r.value == Slot(x, k) && forall j | 0 <= j < k :: Taken(sites, true, name, Slot(x, j));
      assert k <= i;
    }
  }

  lemma FreeBothWays(sites: Store, name: string, other: string, x: nat, y: nat, r: Option<int>, q: Option<int>)
    requires x < SLOTS && y < SLOTS && x != y
    requires !RowTaken(sites, name, x, Ahead(x, y)) && !RowTaken(sites, other, y, Ahead(y, x))
    requires IsFirstFree(sites, true, name, x, r) && IsFirstFree(sites, true, other, y, q)
    ensures r.Some? && q.Some? && r != q
  {
    StopsBefore(sites, name, x, Ahead(x, y), r);
    StopsBefore(sites, other, y, Ahead(y, x), q);
    var k :| 0 <= k < Ahead(x, y) && r.value == Slot(x, k);
    var j :| 0 <= j < Ahead(y, x) && q.value == Slot(y, j);
    SlotShift(x, y, j);
    if r == q { SlotsDiffer(x, k, Ahead(x, y) + j); }
  }

  /** The octet a probe ends with. */
  function Ending(r: Option<int>): int {
    if r.Some? then r.value else LAST
  }

  lemma ProbesAgreeIff(sites: Store, name: string, other: string, x: nat, y: nat, r: Option<int>, q: Option<int>)
    requires x < SLOTS && y < SLOTS && SameView(sites, name, other)
    requires IsFirstFree(sites, true, name, x, r) && IsFirstFree(sites, true, other, y, q)
    ensures Ending(r) == Ending(q) <==> RowTaken(sites, name, x, Ahead(x, y)) || RowTaken(sites, name, y, Ahead(y, x))
  {
    if RowTaken(sites, name, x, Ahead(x, y)) {
      RunsInto(sites, name, other, x, y, q);
      FirstFreeUnique(sites, true, name, x, r, q);
    } else if RowTaken(sites, name, y, Ahead(y, x)) {
      RunsInto(sites, other, name, y, x, r);
      FirstFreeUnique(sites, true, other, y, r, q);
    } else {
      FreeBothWays(sites, name, other, x, y, r, q);
    }
  }

  lemma NoViewBlocked(sites: Store, name: string, other: string)
    requires forall k | k in sites && (k.name == name || k.name == other) :: sites[k].body.spec.n2VIP == ""
    ensures SameView(sites, name, other)
  {
    forall octet ensures Taken(sites, true, name, octet) <==> Taken(sites, true, other, octet) {
      assert forall k | k in sites :: Blocks(k, sites[k], name, octet) <==> Blocks(k, sites[k], other, octet);
    }
  }

  /**
   * Two sites without an address that both read the list before either has written choose one address exactly when all
   * slots from the one's start up to the other's are taken, one way round or the other; so also when the starts agree.
   */
  lemma RacersCollideIff(sites: Store, name: string, other: string, base: string)
    requires IsBase(base)
    requires forall k | k in sites && (k.name == name || k.name == other) :: sites[k].body.spec.n2VIP == ""
    ensures var x, y := SiteIndex.Index(name) % SLOTS, SiteIndex.Index(other) % SLOTS;
      Allocate(sites, true, name, "", base) == Allocate(sites, true, other, "", base) <==>
      RowTaken(sites, name, x, Ahead(x, y)) || RowTaken(sites, name, y, Ahead(y, x))
  {
    NoViewBlocked(sites, name, other);
    Chosen(sites, name, other, base, SiteIndex.Index(name) % SLOTS, SiteIndex.Index(other) % SLOTS);
  }

  lemma Chosen(sites: Store, name: string, other: string, base: string, x: nat, y: nat)
    requires IsBase(base) && SameView(sites, name, other)
    requires x == SiteIndex.Index(name) % SLOTS && y == SiteIndex.Index(other) % SLOTS
    ensures Allocate(sites, true, name, "", base) == Allocate(sites, true, other, "", base) <==>
      RowTaken(sites, name, x, Ahead(x, y)) || RowTaken(sites, name, y, Ahead(y, x))
  {
    var r, q := FirstFree(sites, true, name, x, 0), FirstFree(sites, true, other, y, 0);
    ProbeFrom(sites, true, name, x, 0);
    ProbeFrom(sites, true, other, y, 0);
    ProbesAgreeIff(sites, name, other, x, y, r, q);
    EndingFits(sites, name, x, r);
    EndingFits(sites, other, y, q);
    SameVipIff(base, Ending(r), Ending(q));
  }

  lemma EndingFits(sites: Store, name: string, x: nat, r: Option<int>)
    requires IsFirstFree(sites, true, name, x, r)
    ensures FitsInt64(Ending(r))
  {
  }

  lemma SameVipIff(base: string, x: int, y: int)
    requires IsBase(base) && FitsInt64(x) && FitsInt64(y)
    ensures Vip(base, x) == Vip(base, y) <==> x == y
  {
    OctetOfVip(base, x);
    OctetOfVip(base, y);
  }
}

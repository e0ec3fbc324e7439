/** The N6 firewall program of one datapath reconcile, and what it does to packets, to other rules, and over runs. */
module N6Nat {
  import opened Netfilter

  datatype Firewall = Firewall(natTable: Tables, filterTable: Tables, mangleTable: Tables)

  datatype Config = Config(pool: Pool, nic: string, bridge: string)

  /** One iptables call of a pass. */
  datatype FwCall =
    | DeleteRule(chain: string, rule: Rule)
    | InsertRule(chain: string, rule: Rule)
    | AppendRule(rule: Rule)
    | SeeChain(chain: string)

  /** Which calls of a pass take effect. */
  type Oracle = FwCall -> bool

  const FORWARD := "FORWARD"
  const POSTROUTING := "POSTROUTING"
  const DOCKER_USER := "DOCKER-USER"

  function Masq(c: Config): Rule { Rule(SourceOut(c.pool, c.nic), Masquerade) }
  function FromPool(c: Config): Rule { Rule(Source(c.pool), Accept) }
  function ToPool(c: Config): Rule { Rule(Destination(c.pool), Accept) }
  function HairpinRule(c: Config): Rule { Rule(Hairpin(c.bridge), Accept) }
  function ClampFrom(c: Config): Rule { Rule(SynSource(c.pool), Continue) }
  function ClampTo(c: Config): Rule { Rule(SynDestination(c.pool), Continue) }

  function ManagedBy(c: Config): set<Rule> {
    {Masq(c), FromPool(c), ToPool(c), HairpinRule(c), ClampFrom(c), ClampTo(c)}
  }

  // ----- calls on one table -----

  function DeleteIfExists(t: Tables, chain: string, r: Rule, ok: bool): Tables {
    if ok && chain in t then t[chain := RemoveFirst(t[chain], r)] else t
  }

  function Insert(t: Tables, chain: string, r: Rule, ok: bool): Tables {
    if ok && chain in t then t[chain := [r] + t[chain]] else t
  }

  function Append(t: Tables, chain: string, r: Rule, ok: bool): Tables {
    if ok && chain in t then t[chain := AppendUnique(t[chain], r)] else t
  }

  /** Delete, then insert at the top, ignoring errors of both. */
  function Reinsert(t: Tables, chain: string, r: Rule, ok: Oracle): Tables {
    Insert(DeleteIfExists(t, chain, r, ok(DeleteRule(chain, r))), chain, r, ok(InsertRule(chain, r)))
  }

  function FilterPass(t: Tables, c: Config, ok: Oracle): Tables {
    var from := Reinsert(t, FORWARD, FromPool(c), ok);
    var both := Reinsert(from, FORWARD, ToPool(c), ok);
    var hairpin := Append(both, FORWARD, HairpinRule(c), ok(AppendRule(HairpinRule(c))));
    if ok(SeeChain(DOCKER_USER)) && DOCKER_USER in hairpin
    then Reinsert(Reinsert(hairpin, DOCKER_USER, FromPool(c), ok), DOCKER_USER, ToPool(c), ok)
    else hairpin
  }

  function ManglePass(t: Tables, c: Config, ok: Oracle): Tables {
    Append(Append(t, FORWARD, ClampFrom(c), ok(AppendRule(ClampFrom(c)))), FORWARD, ClampTo(c),
      ok(AppendRule(ClampTo(c))))
  }

  /** One pass over one iptables backend. */
  function Pass(f: Firewall, c: Config, ok: Oracle): Firewall {
    Firewall(Reinsert(f.natTable, POSTROUTING, Masq(c), ok), FilterPass(f.filterTable, c, ok),
      ManglePass(f.mangleTable, c, ok))
  }

  ghost predicate AllOk(ok: Oracle) {
    forall call: FwCall :: ok(call)
  }

  // ----- what the calls do to packets -----

  lemma ReinsertAgrees(t: Tables, chain: string, r: Rule, ok: Oracle, p: Packet, other: Foreign)
    requires !Matches(r.cond, p, other)
    ensures AgreeFor(t, Reinsert(t, chain, r, ok), p, other)
  {
    if chain in t {
      RemoveIrrelevant(t[chain], r, p, other);
      var left := DeleteIfExists(t, chain, r, ok(DeleteRule(chain, r)))[chain];
      assert ([r] + left)[1..] == left;
    }
  }

  lemma AppendAgrees(t: Tables, chain: string, r: Rule, ok: bool, p: Packet, other: Foreign)
    requires !Matches(r.cond, p, other)
    ensures AgreeFor(t, Append(t, chain, r, ok), p, other)
  {
    if chain in t {
      RelevantAppend(t[chain], [r], p, other);
    }
  }

  predicate Outside(c: Config, p: Packet) {
    !c.pool.Holds(p.src) && !c.pool.Holds(p.dst) && !(p.inIf == c.bridge && p.outIf == c.bridge)
  }

  /** Whichever calls fail, a packet outside the pool that is no hairpin meets the same rules as before. */
  lemma OutsideAgrees(f: Firewall, c: Config, ok: Oracle, p: Packet, other: Foreign)
    requires Outside(c, p)
    ensures var g := Pass(f, c, ok);
      && AgreeFor(f.natTable, g.natTable, p, other)
      && AgreeFor(f.filterTable, g.filterTable, p, other)
      && AgreeFor(f.mangleTable, g.mangleTable, p, other)
  {
    ReinsertAgrees(f.natTable, POSTROUTING, Masq(c), ok, p, other);
    FilterAgrees(f.filterTable, c, ok, p, other);
    AppendAgrees(f.mangleTable, FORWARD, ClampFrom(c), ok(AppendRule(ClampFrom(c))), p, other);
    AppendAgrees(Append(f.mangleTable, FORWARD, ClampFrom(c), ok(AppendRule(ClampFrom(c)))), FORWARD, ClampTo(c),
                 ok(AppendRule(ClampTo(c))), p, other);
  }

  lemma FilterAgrees(t: Tables, c: Config, ok: Oracle, p: Packet, other: Foreign)
    requires Outside(c, p)
    ensures AgreeFor(t, FilterPass(t, c, ok), p, other)
  {
    var from := Reinsert(t, FORWARD, FromPool(c), ok);
    ReinsertAgrees(t, FORWARD, FromPool(c), ok, p, other);
    var both := Reinsert(from, FORWARD, ToPool(c), ok);
    ReinsertAgrees(from, FORWARD, ToPool(c), ok, p, other);
    var hairpin := Append(both, FORWARD, HairpinRule(c), ok(AppendRule(HairpinRule(c))));
    AppendAgrees(both, FORWARD, HairpinRule(c), ok(AppendRule(HairpinRule(c))), p, other);
    ReinsertAgrees(hairpin, DOCKER_USER, FromPool(c), ok, p, other);
    ReinsertAgrees(Reinsert(hairpin, DOCKER_USER, FromPool(c), ok), DOCKER_USER, ToPool(c), ok, p, other);
  }

  /** So every such packet gets exactly its previous verdict in every chain of every table, through every jump. */
  lemma OutsideUnchanged(f: Firewall, c: Config, ok: Oracle, chain: string, policy: Verdict, p: Packet, other: Foreign)
    requires Outside(c, p)
    ensures var g := Pass(f, c, ok);
      && ChainVerdict(g.natTable, chain, policy, p, other) == ChainVerdict(f.natTable, chain, policy, p, other)
      && ChainVerdict(g.filterTable, chain, policy, p, other) == ChainVerdict(f.filterTable, chain, policy, p, other)
      && ChainVerdict(g.mangleTable, chain, policy, p, other) == ChainVerdict(f.mangleTable, chain, policy, p, other)
  {
    OutsideAgrees(f, c, ok, p, other);
    var g := Pass(f, c, ok);
    VerdictAgrees(f.natTable, g.natTable, chain, policy, p, other);
    VerdictAgrees(f.filterTable, g.filterTable, chain, policy, p, other);
    VerdictAgrees(f.mangleTable, g.mangleTable, chain, policy, p, other);
  }

  /** Both pool rules on top, whatever the deletions did. */
  lemma ReinsertedTop(t: Tables, chain: string, c: Config, ok: Oracle)
    requires chain in t && ok(InsertRule(chain, FromPool(c))) && ok(InsertRule(chain, ToPool(c)))
    ensures var u := Reinsert(Reinsert(t, chain, FromPool(c), ok), chain, ToPool(c), ok);
      chain in u && |u[chain]| >= 2 && u[chain][0] == ToPool(c) && u[chain][1] == FromPool(c)
  {
    var rest := DeleteIfExists(t, chain, FromPool(c), ok(DeleteRule(chain, FromPool(c))))[chain];
    RemoveSkips([FromPool(c)], rest, ToPool(c));
  }

  lemma TopAccepts(rules: Chain, tables: Tables, open: set<string>, c: Config, p: Packet, other: Foreign)
    requires |rules| >= 2 && rules[0] == ToPool(c) && rules[1] == FromPool(c)
    requires c.pool.Holds(p.src) || c.pool.Holds(p.dst)
    ensures Walk(rules, tables, open, p, other) == Accepted
  {
    assert rules[1..][0] == rules[1];
  }

  /**
   * After a pass whose two FORWARD insertions went through, every packet from or to the pool is accepted, from any
   * chains.
   */
  lemma PoolAccepted(f: Firewall, c: Config, ok: Oracle, policy: Verdict, p: Packet, other: Foreign)
    requires FORWARD in f.filterTable && ok(InsertRule(FORWARD, FromPool(c))) && ok(InsertRule(FORWARD, ToPool(c)))
    requires c.pool.Holds(p.src) || c.pool.Holds(p.dst)
    ensures ChainVerdict(Pass(f, c, ok).filterTable, FORWARD, policy, p, other) == Accepted
  {
    var t := f.filterTable;
    ReinsertedTop(t, FORWARD, c, ok);
    var both := Reinsert(Reinsert(t, FORWARD, FromPool(c), ok), FORWARD, ToPool(c), ok);
    var u := FilterPass(t, c, ok);
    assert both[FORWARD] <= u[FORWARD];
    TopAccepts(u[FORWARD], u, u.Keys - {FORWARD}, c, p, other);
  }

  /** Likewise inside DOCKER-USER, so a jump into it accepts the pool as well. */
  lemma PoolAcceptedInDocker(f: Firewall, c: Config, ok: Oracle, open: set<string>, p: Packet, other: Foreign)
    requires DOCKER_USER in f.filterTable && ok(SeeChain(DOCKER_USER))
    requires ok(InsertRule(DOCKER_USER, FromPool(c))) && ok(InsertRule(DOCKER_USER, ToPool(c)))
    requires c.pool.Holds(p.src) || c.pool.Holds(p.dst)
    ensures var u := Pass(f, c, ok).filterTable;
      DOCKER_USER in u && Walk(u[DOCKER_USER], u, open, p, other) == Accepted
  {
    var t := f.filterTable;
    var both := Reinsert(Reinsert(t, FORWARD, FromPool(c), ok), FORWARD, ToPool(c), ok);
    var hairpin := Append(both, FORWARD, HairpinRule(c), ok(AppendRule(HairpinRule(c))));
    ReinsertedTop(hairpin, DOCKER_USER, c, ok);
    var u := FilterPass(t, c, ok);
    TopAccepts(u[DOCKER_USER], u, open, c, p, other);
  }

  /** After a pass whose MASQUERADE insertion went through, pool traffic leaving by the egress NIC is translated. */
  lemma PoolTranslated(f: Firewall, c: Config, ok: Oracle, policy: Verdict, p: Packet, other: Foreign)
    requires POSTROUTING in f.natTable && ok(InsertRule(POSTROUTING, Masq(c)))
    requires c.pool.Holds(p.src) && p.outIf == c.nic
    ensures ChainVerdict(Pass(f, c, ok).natTable, POSTROUTING, policy, p, other) == Translated
  {
  }

  // ----- what the calls do to rules -----

  /** Exact count of a rule after delete-and-insert. */
  lemma ReinsertCounts(t: Tables, chain: string, r: Rule, ok: Oracle)
    requires chain in t
    ensures var u := Reinsert(t, chain, r, ok);
      var removed := if ok(DeleteRule(chain, r)) && Count(t[chain], r) > 0 then 1 else 0;
      var added := if ok(InsertRule(chain, r)) then 1 else 0;
      && u.Keys == t.Keys && (forall k | k in t && k != chain :: u[k] == t[k])
      && Count(u[chain], r) == Count(t[chain], r) - removed + added
      && (forall q | q != r :: Count(u[chain], q) == Count(t[chain], q))
  {
    RemoveCounts(t[chain], r);
  }

  lemma AppendCounts(t: Tables, chain: string, r: Rule, ok: bool)
    requires chain in t
    ensures var u := Append(t, chain, r, ok);
      && u.Keys == t.Keys && (forall k | k in t && k != chain :: u[k] == t[k])
      && Count(u[chain], r) == (if ok && r !in t[chain] then 1 else Count(t[chain], r))
      && (forall q | q != r :: Count(u[chain], q) == Count(t[chain], q))
  {
  }

  /** A rule piles up in one pass exactly when it was there, its deletion failed and its insertion did not. */
  lemma PilesUpIff(t: Tables, chain: string, r: Rule, ok: Oracle)
    requires chain in t
    ensures var n, m := Count(t[chain], r), Count(Reinsert(t, chain, r, ok)[chain], r);
      (m > 1 && m > n) <==> (n > 0 && !ok(DeleteRule(chain, r)) && ok(InsertRule(chain, r)))
  {
    ReinsertCounts(t, chain, r, ok);
  }

  // ----- what the calls leave of other people's rules -----

  /** Two tables with the same foreign rules, chain by chain and in order. */
  ghost predicate SameForeign(t: Tables, u: Tables, managed: set<Rule>) {
    t.Keys == u.Keys && forall k | k in t :: Unmanaged(u[k], managed) == Unmanaged(t[k], managed)
  }

  lemma ReinsertKeepsForeign(t: Tables, chain: string, r: Rule, ok: Oracle, managed: set<Rule>)
    requires r in managed
    ensures SameForeign(t, Reinsert(t, chain, r, ok), managed)
  {
    if chain in t {
      var d := DeleteIfExists(t, chain, r, ok(DeleteRule(chain, r)));
      UnmanagedRemove(t[chain], r, managed);
      assert ([r] + d[chain])[1..] == d[chain];
    }
  }

  lemma AppendKeepsForeign(t: Tables, chain: string, r: Rule, ok: bool, managed: set<Rule>)
    requires r in managed
    ensures SameForeign(t, Append(t, chain, r, ok), managed)
  {
    if chain in t { UnmanagedAppend(t[chain], [r], managed); }
  }

  lemma FilterKeepsForeign(t: Tables, c: Config, ok: Oracle, managed: set<Rule>)
    requires FromPool(c) in managed && ToPool(c) in managed && HairpinRule(c) in managed
    ensures SameForeign(t, FilterPass(t, c, ok), managed)
  {
    var from := Reinsert(t, FORWARD, FromPool(c), ok);
    var both := Reinsert(from, FORWARD, ToPool(c), ok);
    var hairpin := Append(both, FORWARD, HairpinRule(c), ok(AppendRule(HairpinRule(c))));
    ReinsertKeepsForeign(t, FORWARD, FromPool(c), ok, managed);
    ReinsertKeepsForeign(from, FORWARD, ToPool(c), ok, managed);
    AppendKeepsForeign(both, FORWARD, HairpinRule(c), ok(AppendRule(HairpinRule(c))), managed);
    ReinsertKeepsForeign(hairpin, DOCKER_USER, FromPool(c), ok, managed);
    ReinsertKeepsForeign(Reinsert(hairpin, DOCKER_USER, FromPool(c), ok), DOCKER_USER, ToPool(c), ok, managed);
  }

  /** Whichever calls fail, a pass leaves every rule of others in its chain, in order. */
  lemma PassKeepsForeign(f: Firewall, c: Config, ok: Oracle, managed: set<Rule>)
    requires ManagedBy(c) <= managed
    ensures var g := Pass(f, c, ok);
      && SameForeign(f.natTable, g.natTable, managed) && SameForeign(f.filterTable, g.filterTable, managed)
      && SameForeign(f.mangleTable, g.mangleTable, managed)
  {
    assert Masq(c) in managed && FromPool(c) in managed && ToPool(c) in managed
        && HairpinRule(c) in managed && ClampFrom(c) in managed && ClampTo(c) in managed;
    var u := Append(f.mangleTable, FORWARD, ClampFrom(c), ok(AppendRule(ClampFrom(c))));
    ReinsertKeepsForeign(f.natTable, POSTROUTING, Masq(c), ok, managed);
    FilterKeepsForeign(f.filterTable, c, ok, managed);
    AppendKeepsForeign(f.mangleTable, FORWARD, ClampFrom(c), ok(AppendRule(ClampFrom(c))), managed);
    AppendKeepsForeign(u, FORWARD, ClampTo(c), ok(AppendRule(ClampTo(c))), managed);
  }

  // ----- a second pass -----

  lemma ReinsertOnTop(t: Tables, chain: string, r: Rule, ok: Oracle)
    requires AllOk(ok) && chain in t && |t[chain]| > 0 && t[chain][0] == r
    ensures Reinsert(t, chain, r, ok) == t
  {
    assert t[chain] == [r] + t[chain][1..];
  }

  /** The pool pair reinserted onto a chain that starts with it. */
  lemma PairOnTop(t: Tables, chain: string, a: Rule, b: Rule, ok: Oracle)
    requires AllOk(ok) && chain in t && a != b && |t[chain]| >= 2 && t[chain][0] == b && t[chain][1] == a
    ensures Reinsert(Reinsert(t, chain, a, ok), chain, b, ok) == t
  {
    var rest := t[chain][2..];
    assert t[chain] == [b] + ([a] + rest);
    RemoveSkips([b], [a] + rest, a);
    RemoveHead(a, rest);
    assert Reinsert(t, chain, a, ok)[chain] == [a] + ([b] + rest);
    RemoveSkips([a], [b] + rest, b);
    RemoveHead(b, rest);
  }

  lemma AppendTwice(t: Tables, chain: string, r: Rule, ok: bool)
    requires ok && (chain in t ==> r in t[chain])
    ensures Append(t, chain, r, ok) == t
  {
  }

  /** The pool pair heads a chain. */
  predicate PairOnTopOf(rules: Chain, c: Config) {
    |rules| >= 2 && rules[0] == ToPool(c) && rules[1] == FromPool(c)
  }

  predicate NatProgrammed(t: Tables, c: Config) {
    POSTROUTING in t ==> |t[POSTROUTING]| > 0 && t[POSTROUTING][0] == Masq(c)
  }

  predicate FilterProgrammed(t: Tables, c: Config) {
    && (FORWARD in t ==> PairOnTopOf(t[FORWARD], c) && HairpinRule(c) in t[FORWARD])
    && (DOCKER_USER in t ==> PairOnTopOf(t[DOCKER_USER], c))
  }

  predicate MangleProgrammed(t: Tables, c: Config) {
    FORWARD in t ==> ClampFrom(c) in t[FORWARD] && ClampTo(c) in t[FORWARD]
  }

  /** The rules the declaration asks for are there, where they have to be. */
  predicate Programmed(f: Firewall, c: Config) {
    NatProgrammed(f.natTable, c) && FilterProgrammed(f.filterTable, c) && MangleProgrammed(f.mangleTable, c)
  }

  lemma FilterGetsProgrammed(t: Tables, c: Config, ok: Oracle)
    requires AllOk(ok)
    ensures FilterProgrammed(FilterPass(t, c, ok), c) && FilterPass(t, c, ok).Keys == t.Keys
  {
    var both := Reinsert(Reinsert(t, FORWARD, FromPool(c), ok), FORWARD, ToPool(c), ok);
    if FORWARD in t { ReinsertedTop(t, FORWARD, c, ok); }
    var hairpin := Append(both, FORWARD, HairpinRule(c), ok(AppendRule(HairpinRule(c))));
    if DOCKER_USER in t { ReinsertedTop(hairpin, DOCKER_USER, c, ok); }
  }

  lemma FilterIsFixed(u: Tables, c: Config, ok: Oracle)
    requires AllOk(ok) && FilterProgrammed(u, c)
    ensures FilterPass(u, c, ok) == u
  {
    if FORWARD in u { PairOnTop(u, FORWARD, FromPool(c), ToPool(c), ok); }
    AppendTwice(u, FORWARD, HairpinRule(c), ok(AppendRule(HairpinRule(c))));
    if DOCKER_USER in u { PairOnTop(u, DOCKER_USER, FromPool(c), ToPool(c), ok); }
  }

  lemma MangleIsFixed(t: Tables, c: Config, ok: Oracle)
    requires AllOk(ok) && MangleProgrammed(t, c)
    ensures ManglePass(t, c, ok) == t
  {
    AppendTwice(t, FORWARD, ClampFrom(c), ok(AppendRule(ClampFrom(c))));
    AppendTwice(t, FORWARD, ClampTo(c), ok(AppendRule(ClampTo(c))));
  }

  /** From any chains, a pass whose calls all take effect leaves every rule where it is declared to be. */
  lemma PassPrograms(f: Firewall, c: Config, ok: Oracle)
    requires AllOk(ok)
    ensures Programmed(Pass(f, c, ok), c)
  {
    FilterGetsProgrammed(f.filterTable, c, ok);
  }

  /** And it changes nothing exactly when they were there before. */
  lemma FixedIffProgrammed(f: Firewall, c: Config, ok: Oracle)
    requires AllOk(ok)
    ensures Pass(f, c, ok) == f <==> Programmed(f, c)
  {
    PassPrograms(f, c, ok);
    if Programmed(f, c) {
      if POSTROUTING in f.natTable { ReinsertOnTop(f.natTable, POSTROUTING, Masq(c), ok); }
      FilterIsFixed(f.filterTable, c, ok);
      MangleIsFixed(f.mangleTable, c, ok);
    }
  }

  /** An immediate second pass changes nothing, from any chains. */
  lemma PassIdempotent(f: Firewall, c: Config, ok: Oracle)
    requires AllOk(ok)
    ensures Pass(Pass(f, c, ok), c, ok) == Pass(f, c, ok)
  {
    PassPrograms(f, c, ok);
    FixedIffProgrammed(Pass(f, c, ok), c, ok);
  }

  // ----- copies after a pass -----

  ghost predicate AtMostOnce(t: Tables, managed: set<Rule>) {
    forall k, r | k in t && r in managed :: Count(t[k], r) <= 1
  }

  ghost predicate FirewallAtMostOnce(f: Firewall, managed: set<Rule>) {
    AtMostOnce(f.natTable, managed) && AtMostOnce(f.filterTable, managed) && AtMostOnce(f.mangleTable, managed)
  }

  /** The rule is present, its deletion fails, and its insertion does not. */
  predicate Piles(t: Tables, chain: string, r: Rule, ok: Oracle) {
    chain in t && r in t[chain] && !ok(DeleteRule(chain, r)) && ok(InsertRule(chain, r))
  }

  predicate SomePiles(f: Firewall, c: Config, ok: Oracle) {
    || Piles(f.natTable, POSTROUTING, Masq(c), ok)
    || Piles(f.filterTable, FORWARD, FromPool(c), ok) || Piles(f.filterTable, FORWARD, ToPool(c), ok)
    || (ok(SeeChain(DOCKER_USER)) &&
        (Piles(f.filterTable, DOCKER_USER, FromPool(c), ok) || Piles(f.filterTable, DOCKER_USER, ToPool(c), ok)))
  }

  /** Copies of `r` after delete-and-insert, when there were `n`. */
  function Copies(n: nat, chain: string, r: Rule, ok: Oracle): nat {
    n - (if ok(DeleteRule(chain, r)) && n > 0 then 1 else 0) + (if ok(InsertRule(chain, r)) then 1 else 0)
  }

  lemma ReinsertCopies(t: Tables, chain: string, q: Rule, ok: Oracle, k: string, r: Rule)
    requires k in t
    ensures var u := Reinsert(t, chain, q, ok);
      && u.Keys == t.Keys
      && Count(u[k], r) == if k == chain && r == q then Copies(Count(t[k], r), k, r, ok) else Count(t[k], r)
  {
    if chain in t { ReinsertCounts(t, chain, q, ok); }
  }

  lemma AppendCopies(t: Tables, chain: string, q: Rule, ok: bool, k: string, r: Rule)
    requires k in t
    ensures var u := Append(t, chain, q, ok);
      && u.Keys == t.Keys
      && Count(u[k], r) == if k == chain && r == q && ok && Count(t[k], r) == 0 then 1 else Count(t[k], r)
  {
    if chain in t { AppendCounts(t, chain, q, ok); }
  }

  /** The pool pair reinserted on one chain. */
  lemma PairCopies(t: Tables, chain: string, c: Config, ok: Oracle, k: string, r: Rule)
    requires k in t
    ensures var u := Reinsert(Reinsert(t, chain, FromPool(c), ok), chain, ToPool(c), ok);
      && u.Keys == t.Keys
      && Count(u[k], r) == if k == chain && (r == FromPool(c) || r == ToPool(c)) then Copies(Count(t[k], r), k, r, ok)
         else Count(t[k], r)
  {
    ReinsertCopies(t, chain, FromPool(c), ok, k, r);
    ReinsertCopies(Reinsert(t, chain, FromPool(c), ok), chain, ToPool(c), ok, k, r);
  }

  /** Is the pool pair reinserted on this chain? */
  predicate Paired(t: Tables, k: string, ok: Oracle) {
    k == FORWARD || (k == DOCKER_USER && ok(SeeChain(DOCKER_USER)))
  }

  /** Exact number of copies of every rule in every chain of the filter table after a pass. */
  lemma FilterCopies(t: Tables, c: Config, ok: Oracle, k: string, r: Rule)
    requires k in t
    ensures var u := FilterPass(t, c, ok);
      && u.Keys == t.Keys
      && Count(u[k], r) ==
           if (r == FromPool(c) || r == ToPool(c)) && Paired(t, k, ok) then Copies(Count(t[k], r), k, r, ok)
           else if k == FORWARD && r == HairpinRule(c) && ok(AppendRule(r)) && Count(t[k], r) == 0 then 1
           else Count(t[k], r)
  {
    var both := Reinsert(Reinsert(t, FORWARD, FromPool(c), ok), FORWARD, ToPool(c), ok);
    PairCopies(t, FORWARD, c, ok, k, r);
    var hairpin := Append(both, FORWARD, HairpinRule(c), ok(AppendRule(HairpinRule(c))));
    AppendCopies(both, FORWARD, HairpinRule(c), ok(AppendRule(HairpinRule(c))), k, r);
    PairCopies(hairpin, DOCKER_USER, c, ok, k, r);
    FilterEnds(t, c, ok, both, hairpin);
  }

  lemma FilterEnds(t: Tables, c: Config, ok: Oracle, both: Tables, hairpin: Tables)
    requires both == Reinsert(Reinsert(t, FORWARD, FromPool(c), ok), FORWARD, ToPool(c), ok)
    requires hairpin == Append(both, FORWARD, HairpinRule(c), ok(AppendRule(HairpinRule(c))))
    ensures FilterPass(t, c, ok) ==
      if ok(SeeChain(DOCKER_USER)) && DOCKER_USER in hairpin
      then Reinsert(Reinsert(hairpin, DOCKER_USER, FromPool(c), ok), DOCKER_USER, ToPool(c), ok) else hairpin
  {
  }

  lemma MangleCopies(t: Tables, c: Config, ok: Oracle, k: string, r: Rule)
    requires k in t
    ensures var u := ManglePass(t, c, ok);
      && u.Keys == t.Keys
      && Count(u[k], r) == if k == FORWARD && (r == ClampFrom(c) || r == ClampTo(c)) && ok(AppendRule(r))
         && r !in t[k] then 1
                           else Count(t[k], r)
  {
    if FORWARD in t {
      AppendCounts(t, FORWARD, ClampFrom(c), ok(AppendRule(ClampFrom(c))));
      AppendCounts(Append(t, FORWARD, ClampFrom(c), ok(AppendRule(ClampFrom(c)))), FORWARD, ClampTo(c),
        ok(AppendRule(ClampTo(c))));
    }
  }

  /** Of rule `r` in chain `k`: once more only if it piles up. */
  predicate OnceUnlessPiled(t: Tables, u: Tables, c: Config, ok: Oracle, k: string, r: Rule) {
    k in t && k in u &&
    (Count(u[k], r) <= 1 <==> !((r == FromPool(c) || r == ToPool(c)) && Paired(t, k, ok) && Piles(t, k, r, ok)))
  }

  lemma FilterOnceAt(t: Tables, c: Config, ok: Oracle, k: string, r: Rule)
    requires k in t && Count(t[k], r) <= 1
    ensures OnceUnlessPiled(t, FilterPass(t, c, ok), c, ok, k, r)
  {
    FilterCopies(t, c, ok, k, r);
  }

  lemma FilterOnceIff(t: Tables, c: Config, ok: Oracle, managed: set<Rule>)
    requires AtMostOnce(t, managed) && FromPool(c) in managed && ToPool(c) in managed
    ensures AtMostOnce(FilterPass(t, c, ok), managed) <==>
      !(Piles(t, FORWARD, FromPool(c), ok) || Piles(t, FORWARD, ToPool(c), ok)
        || (ok(SeeChain(DOCKER_USER)) && (Piles(t, DOCKER_USER, FromPool(c), ok)
              || Piles(t, DOCKER_USER, ToPool(c), ok))))
  {
    FilterKeys(t, c, ok);
    FilterOnceEach(t, c, ok, managed);
    OnceFromCounts(t, FilterPass(t, c, ok), c, ok, managed);
  }

  lemma FilterOnceEach(t: Tables, c: Config, ok: Oracle, managed: set<Rule>)
    requires AtMostOnce(t, managed)
    ensures forall k, r | k in t && r in managed :: OnceUnlessPiled(t, FilterPass(t, c, ok), c, ok, k, r)
  {
    forall k, r | k in t && r in managed ensures OnceUnlessPiled(t, FilterPass(t, c, ok), c, ok, k, r) {
      assert Count(t[k], r) <= 1;
      FilterOnceAt(t, c, ok, k, r);
    }
  }

  lemma OnceFromCounts(t: Tables, u: Tables, c: Config, ok: Oracle, managed: set<Rule>)
    requires u.Keys == t.Keys && FromPool(c) in managed && ToPool(c) in managed
    requires forall k, r | k in t && r in managed :: OnceUnlessPiled(t, u, c, ok, k, r)
    ensures AtMostOnce(u, managed) <==>
      !(Piles(t, FORWARD, FromPool(c), ok) || Piles(t, FORWARD, ToPool(c), ok)
        || (ok(SeeChain(DOCKER_USER)) && (Piles(t, DOCKER_USER, FromPool(c), ok)
              || Piles(t, DOCKER_USER, ToPool(c), ok))))
  {
  }

  lemma FilterKeys(t: Tables, c: Config, ok: Oracle)
    ensures FilterPass(t, c, ok).Keys == t.Keys
  {
    var both := Reinsert(Reinsert(t, FORWARD, FromPool(c), ok), FORWARD, ToPool(c), ok);
    FilterEnds(t, c, ok, both, Append(both, FORWARD, HairpinRule(c), ok(AppendRule(HairpinRule(c)))));
  }

  /**
   * A pass keeps every managed rule at most once exactly when no rule that is present has its deletion fail and its
   * insertion take effect.
   */
  lemma KeepsOnceIff(f: Firewall, c: Config, ok: Oracle, managed: set<Rule>)
    requires FirewallAtMostOnce(f, managed) && ManagedBy(c) <= managed
    ensures FirewallAtMostOnce(Pass(f, c, ok), managed) <==> !SomePiles(f, c, ok)
  {
    assert Masq(c) in managed && FromPool(c) in managed && ToPool(c) in managed;
    var g := Pass(f, c, ok);
    if POSTROUTING in f.natTable {
      ReinsertCounts(f.natTable, POSTROUTING, Masq(c), ok);
      assert Count(f.natTable[POSTROUTING], Masq(c)) <= 1;
      assert Piles(f.natTable, POSTROUTING, Masq(c), ok) <==> Count(g.natTable[POSTROUTING], Masq(c)) > 1;
    }
    assert AtMostOnce(g.natTable, managed) <==> !Piles(f.natTable, POSTROUTING, Masq(c), ok);
    FilterOnceIff(f.filterTable, c, ok, managed);
    forall k, r | k in g.mangleTable && r in managed ensures Count(g.mangleTable[k], r) <= 1 {
      assert k in f.mangleTable;
      MangleCopies(f.mangleTable, c, ok, k, r);
      assert Count(f.mangleTable[k], r) <= 1;
    }
  }
}

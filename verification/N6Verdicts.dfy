/**
 * What one pass of the N6 program means to packets, verdict by verdict: which packets are accepted or translated, and
 * which keep exactly the verdict they had, whatever rules others have and whichever calls fail.
 */
module N6Verdicts {
  import opened Netfilter
  import opened N6Nat

  // ----- rules that decide nothing -----

  /** The rules that can decide something. */
  function Deciding(rules: Chain): Chain {
    if |rules| == 0 then []
    else if rules[0].target == Continue then Deciding(rules[1..])
    else [rules[0]] + Deciding(rules[1..])
  }

  lemma {:induction false} DecidingAppend(a: Chain, b: Chain)
    ensures Deciding(a + b) == Deciding(a) + Deciding(b)
  {
    if |a| == 0 {
      assert a + b == b;
    } else {
      assert (a + b)[1..] == a[1..] + b;
      DecidingAppend(a[1..], b);
    }
  }

  ghost predicate DecideAlike(t: Tables, u: Tables) {
    t.Keys == u.Keys && forall c | c in t :: Deciding(t[c]) == Deciding(u[c])
  }

  /** Rules that decide nothing have no bearing on any packet, through every jump. */
  lemma {:induction false} WalkDecides(rules: Chain, others: Chain, t: Tables, u: Tables, open: set<string>, p: Packet,
                                       other: Foreign)
    requires Deciding(rules) == Deciding(others) && DecideAlike(t, u)
    ensures Walk(rules, t, open, p, other) == Walk(others, u, open, p, other)
    decreases open, |rules| + |others|
  {
    if |rules| > 0 && rules[0].target == Continue {
      WalkDecides(rules[1..], others, t, u, open, p, other);
    } else if |others| > 0 && others[0].target == Continue {
      WalkDecides(rules, others[1..], t, u, open, p, other);
    } else if |rules| > 0 && |others| > 0 {
      assert rules[0] == Deciding(rules)[0] == others[0];
      assert Deciding(rules[1..]) == Deciding(rules)[1..] && Deciding(others[1..]) == Deciding(others)[1..];
      WalkDecides(rules[1..], others[1..], t, u, open, p, other);
      if rules[0].target.Jump? {
        var c := rules[0].target.chain;
        if c in open && c in t { WalkDecides(t[c], u[c], t, u, open - {c}, p, other); }
      }
    }
  }

  lemma AppendDecidesNothing(t: Tables, chain: string, r: Rule, ok: bool)
    requires r.target == Continue
    ensures DecideAlike(t, Append(t, chain, r, ok))
  {
    if chain in t { DecidingAppend(t[chain], [r]); }
  }

  /** In the mangle table every packet keeps its verdict in every chain, whichever calls fail: clamping only marks. */
  lemma MangleKeepsVerdicts(f: Firewall, c: Config, ok: Oracle, chain: string, policy: Verdict, p: Packet,
                            other: Foreign)
    ensures ChainVerdict(N6Nat.Pass(f, c, ok).mangleTable, chain, policy, p, other) ==
      ChainVerdict(f.mangleTable, chain, policy, p, other)
  {
    var t, v := f.mangleTable, N6Nat.Pass(f, c, ok).mangleTable;
    MangleAlike(t, c, ok);
    if chain in t { WalkDecides(t[chain], v[chain], t, v, t.Keys - {chain}, p, other); }
  }

  lemma MangleAlike(t: Tables, c: Config, ok: Oracle)
    ensures DecideAlike(t, ManglePass(t, c, ok))
  {
    var u := Append(t, FORWARD, ClampFrom(c), ok(AppendRule(ClampFrom(c))));
    AppendDecidesNothing(t, FORWARD, ClampFrom(c), ok(AppendRule(ClampFrom(c))));
    AppendDecidesNothing(u, FORWARD, ClampTo(c), ok(AppendRule(ClampTo(c))));
  }

  /**
   * Every connection attempt from or to the pool meets a clamping rule in mangle FORWARD; no other packet meets a rule
   * it did not meet before.
   */
  lemma ClampsExactly(f: Firewall, c: Config, ok: Oracle, p: Packet, other: Foreign)
    requires AllOk(ok) && "FORWARD" in f.mangleTable
    ensures var v := N6Nat.Pass(f, c, ok).mangleTable;
      && "FORWARD" in v && Rule(SynSource(c.pool), Continue) in v["FORWARD"]
      && Rule(SynDestination(c.pool), Continue) in v["FORWARD"]
      && (!(p.tcpSyn && (c.pool.Holds(p.src) || c.pool.Holds(p.dst))) ==> AgreeFor(f.mangleTable, v, p, other))
  {
    var t := f.mangleTable;
    var u := Append(t, FORWARD, ClampFrom(c), ok(AppendRule(ClampFrom(c))));
    if !(p.tcpSyn && (c.pool.Holds(p.src) || c.pool.Holds(p.dst))) {
      AppendAgrees(t, FORWARD, ClampFrom(c), ok(AppendRule(ClampFrom(c))), p, other);
      AppendAgrees(u, FORWARD, ClampTo(c), ok(AppendRule(ClampTo(c))), p, other);
    }
  }

  // ----- the hairpin -----

  /** The packet gets past the last rule: none decides about it, and none returns. */
  predicate FallsThrough(rules: Chain, tables: Tables, open: set<string>, p: Packet, other: Foreign) {
    if |rules| == 0 then true
    else if !Matches(rules[0].cond, p, other) then FallsThrough(rules[1..], tables, open, p, other)
    else match rules[0].target
      case Continue => FallsThrough(rules[1..], tables, open, p, other)
      case Jump(c) =>
        c in open && c in tables && Walk(tables[c], tables, open - {c}, p, other) == Undecided
        && FallsThrough(rules[1..], tables, open, p, other)
      case _ => false
  }

  lemma {:induction false} FallenUndecided(rules: Chain, tables: Tables, open: set<string>, p: Packet, other: Foreign)
    requires FallsThrough(rules, tables, open, p, other)
    ensures Walk(rules, tables, open, p, other) == Undecided
    decreases |rules|
  {
    if |rules| > 0 { FallenUndecided(rules[1..], tables, open, p, other); }
  }

  /** A rule at the end accepts what gets past all others. */
  lemma {:induction false} LastAccepts(rules: Chain, r: Rule, tables: Tables, open: set<string>, p: Packet,
                                       other: Foreign)
    requires Matches(r.cond, p, other) && r.target == Accept
    ensures Walk(rules + [r], tables, open, p, other) ==
      if FallsThrough(rules, tables, open, p, other) then Accepted else Walk(rules, tables, open, p, other)
    decreases |rules|
  {
    if |rules| == 0 {
      assert rules + [r] == [r];
    } else {
      assert (rules + [r])[1..] == rules[1..] + [r];
      LastAccepts(rules[1..], r, tables, open, p, other);
    }
  }

  /** What already holds a rule that accepts the packet lets nothing like it through. */
  lemma {:induction false} NoneFalls(rules: Chain, r: Rule, tables: Tables, open: set<string>, p: Packet,
                                     other: Foreign)
    requires Matches(r.cond, p, other) && r.target == Accept && r in rules
    ensures !FallsThrough(rules, tables, open, p, other)
    decreases |rules|
  {
    if rules[0] != r {
      assert r in rules[1..];
      NoneFalls(rules[1..], r, tables, open, p, other);
    }
  }

  /** The tables agree about the packet on the chains that may still be entered. */
  ghost predicate AgreeOn(t: Tables, u: Tables, open: set<string>, p: Packet, other: Foreign) {
    t.Keys == u.Keys && forall c | c in t && c in open :: Relevant(t[c], p, other) == Relevant(u[c], p, other)
  }

  lemma {:induction false} WalkAgreesOn(rules: Chain, others: Chain, t: Tables, u: Tables, open: set<string>,
                                        p: Packet, other: Foreign)
    requires Relevant(rules, p, other) == Relevant(others, p, other) && AgreeOn(t, u, open, p, other)
    ensures Walk(rules, t, open, p, other) == Walk(others, u, open, p, other)
    ensures FallsThrough(rules, t, open, p, other) == FallsThrough(others, u, open, p, other)
    decreases open, |rules| + |others|
  {
    if |rules| > 0 && !Matches(rules[0].cond, p, other) {
      WalkAgreesOn(rules[1..], others, t, u, open, p, other);
    } else if |others| > 0 && !Matches(others[0].cond, p, other) {
      WalkAgreesOn(rules, others[1..], t, u, open, p, other);
    } else if |rules| > 0 && |others| > 0 {
      assert rules[0] == Relevant(rules, p, other)[0] == others[0];
      assert Relevant(rules[1..], p, other) == Relevant(rules, p, other)[1..];
      assert Relevant(others[1..], p, other) == Relevant(others, p, other)[1..];
      WalkAgreesOn(rules[1..], others[1..], t, u, open, p, other);
      if rules[0].target.Jump? {
        var c := rules[0].target.chain;
        if c in open && c in t { WalkAgreesOn(t[c], u[c], t, u, open - {c}, p, other); }
      }
    }
  }

  predicate AccessHairpin(c: Config, p: Packet) {
    p.inIf == c.bridge && p.outIf == c.bridge && !c.pool.Holds(p.src) && !c.pool.Holds(p.dst)
  }

  /** The filter table of a pass, up to the rules of the pool, about which the packet does not care. */
  lemma AroundHairpin(t: Tables, c: Config, ok: Oracle, both: Tables, u: Tables, p: Packet, other: Foreign)
    requires !c.pool.Holds(p.src) && !c.pool.Holds(p.dst) && u == FilterPass(t, c, ok)
    requires both == Reinsert(Reinsert(t, "FORWARD", FromPool(c), ok), "FORWARD", ToPool(c), ok)
    ensures AgreeFor(t, both, p, other)
    ensures AgreeFor(Append(both, "FORWARD", HairpinRule(c), ok(AppendRule(HairpinRule(c)))), u, p, other)
  {
    var from := Reinsert(t, FORWARD, FromPool(c), ok);
    ReinsertAgrees(t, FORWARD, FromPool(c), ok, p, other);
    ReinsertAgrees(from, FORWARD, ToPool(c), ok, p, other);
    var hairpin := Append(both, FORWARD, HairpinRule(c), ok(AppendRule(HairpinRule(c))));
    ReinsertAgrees(hairpin, DOCKER_USER, FromPool(c), ok, p, other);
    ReinsertAgrees(Reinsert(hairpin, DOCKER_USER, FromPool(c), ok), DOCKER_USER, ToPool(c), ok, p, other);
  }

  /** The chain with the hairpin rule appended unless it is there. */
  lemma HairpinWalk(t: Tables, both: Tables, u: Tables, r: Rule, ok: bool, open: set<string>, p: Packet, other: Foreign)
    requires "FORWARD" in t && "FORWARD" !in open && AgreeFor(t, both, p, other)
    requires AgreeFor(Append(both, "FORWARD", r, ok), u, p, other)
    requires Matches(r.cond, p, other) && r.target == Accept
    ensures Walk(u["FORWARD"], u, open, p, other) ==
      if ok && FallsThrough(t["FORWARD"], t, open, p, other) then Accepted
      else Walk(t["FORWARD"], t, open, p, other)
  {
    var mid := Append(both, "FORWARD", r, ok);
    WalkAgreesOn(mid["FORWARD"], u["FORWARD"], both, u, open, p, other);
    WalkAgreesOn(t["FORWARD"], both["FORWARD"], t, both, open, p, other);
    LastAccepts(both["FORWARD"], r, both, open, p, other);
    if r in both["FORWARD"] { NoneFalls(both["FORWARD"], r, both, open, p, other); }
  }

  lemma HairpinFilter(t: Tables, c: Config, ok: Oracle, u: Tables, open: set<string>, p: Packet, other: Foreign)
    requires "FORWARD" in t && "FORWARD" !in open && AccessHairpin(c, p) && u == FilterPass(t, c, ok)
    ensures u.Keys == t.Keys
    ensures Walk(u["FORWARD"], u, open, p, other) ==
      if ok(AppendRule(Rule(Hairpin(c.bridge), Accept))) && FallsThrough(t["FORWARD"], t, open, p, other) then Accepted
      else Walk(t["FORWARD"], t, open, p, other)
  {
    var both := Reinsert(Reinsert(t, "FORWARD", FromPool(c), ok), "FORWARD", ToPool(c), ok);
    AroundHairpin(t, c, ok, both, u, p, other);
    HairpinWalk(t, both, u, HairpinRule(c), ok(AppendRule(HairpinRule(c))), open, p, other);
  }

  /**
   * A packet that comes in and leaves by the access bridge and is not the pool's: in filter FORWARD it keeps the
   * verdict it had, except that what got past the last rule there is accepted, if the append takes effect. So it is
   * from any chains; where an accept for it is already held, nothing gets past and every verdict stays.
   */
  lemma HairpinAccepted(f: Firewall, c: Config, ok: Oracle, policy: Verdict, p: Packet, other: Foreign)
    requires "FORWARD" in f.filterTable && AccessHairpin(c, p)
    ensures ChainVerdict(N6Nat.Pass(f, c, ok).filterTable, "FORWARD", policy, p, other) ==
      if ok(AppendRule(Rule(Hairpin(c.bridge), Accept)))
         && FallsThrough(f.filterTable["FORWARD"], f.filterTable, f.filterTable.Keys - {"FORWARD"}, p, other)
      then Accepted else ChainVerdict(f.filterTable, "FORWARD", policy, p, other)
  {
    HairpinFilter(f.filterTable, c, ok, N6Nat.Pass(f, c, ok).filterTable, f.filterTable.Keys - {"FORWARD"}, p, other);
  }

  /** Where no rule for the packet returns, getting past the last rule is being left undecided. */
  lemma {:induction false} FallsIffUndecided(rules: Chain, tables: Tables, open: set<string>, p: Packet, other: Foreign)
    requires forall r | r in rules :: r.target == Return ==> !Matches(r.cond, p, other)
    ensures FallsThrough(rules, tables, open, p, other) <==> Walk(rules, tables, open, p, other) == Undecided
    decreases |rules|
  {
    if |rules| > 0 {
      assert rules[0] in rules && forall r | r in rules[1..] :: r in rules;
      FallsIffUndecided(rules[1..], tables, open, p, other);
    }
  }

  // ----- all verdicts of a pass -----

  /**
   * The verdict of filter FORWARD about every packet, after a pass whose calls take effect: the pool is accepted both
   * ways, the access hairpin where nobody decided about it, and everything else as before.
   */
  lemma ForwardVerdict(f: Firewall, c: Config, ok: Oracle, policy: Verdict, p: Packet, other: Foreign)
    requires AllOk(ok) && "FORWARD" in f.filterTable
    ensures ChainVerdict(N6Nat.Pass(f, c, ok).filterTable, "FORWARD", policy, p, other) ==
      if c.pool.Holds(p.src) || c.pool.Holds(p.dst) then Accepted
      else if p.inIf == c.bridge && p.outIf == c.bridge
              && FallsThrough(f.filterTable["FORWARD"], f.filterTable, f.filterTable.Keys - {"FORWARD"}, p, other)
      then Accepted
      else ChainVerdict(f.filterTable, "FORWARD", policy, p, other)
  {
    if c.pool.Holds(p.src) || c.pool.Holds(p.dst) {
      PoolAccepted(f, c, ok, policy, p, other);
    } else if AccessHairpin(c, p) {
      HairpinAccepted(f, c, ok, policy, p, other);
    } else {
      OutsideUnchanged(f, c, ok, "FORWARD", policy, p, other);
    }
  }

  /** That of DOCKER-USER: the pool is accepted both ways, and every other packet as before. */
  lemma DockerVerdict(f: Firewall, c: Config, ok: Oracle, policy: Verdict, p: Packet, other: Foreign)
    requires AllOk(ok) && "DOCKER-USER" in f.filterTable && !(p.inIf == c.bridge && p.outIf == c.bridge)
    ensures ChainVerdict(N6Nat.Pass(f, c, ok).filterTable, "DOCKER-USER", policy, p, other) ==
      if c.pool.Holds(p.src) || c.pool.Holds(p.dst) then Accepted
      else ChainVerdict(f.filterTable, "DOCKER-USER", policy, p, other)
  {
    if c.pool.Holds(p.src) || c.pool.Holds(p.dst) {
      PoolAcceptedInDocker(f, c, ok, N6Nat.Pass(f, c, ok).filterTable.Keys - {"DOCKER-USER"}, p, other);
    } else {
      OutsideUnchanged(f, c, ok, "DOCKER-USER", policy, p, other);
    }
  }

  /** That of nat POSTROUTING: what the pool sends out by the egress NIC is translated, everything else as before. */
  lemma PostroutingVerdict(f: Firewall, c: Config, ok: Oracle, policy: Verdict, p: Packet, other: Foreign)
    requires AllOk(ok) && "POSTROUTING" in f.natTable
    ensures ChainVerdict(N6Nat.Pass(f, c, ok).natTable, "POSTROUTING", policy, p, other) ==
      if c.pool.Holds(p.src) && p.outIf == c.nic then Translated
      else ChainVerdict(f.natTable, "POSTROUTING", policy, p, other)
  {
    if c.pool.Holds(p.src) && p.outIf == c.nic {
      PoolTranslated(f, c, ok, policy, p, other);
    } else {
      ReinsertAgrees(f.natTable, POSTROUTING, Masq(c), ok, p, other);
      VerdictAgrees(f.natTable, N6Nat.Pass(f, c, ok).natTable, "POSTROUTING", policy, p, other);
    }
  }
}

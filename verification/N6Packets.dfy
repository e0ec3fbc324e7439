/**
 * What the calls of the N6 program mean to packets while runs go on: the programs of any pools interleave, call by
 * call, and may die anywhere.
 */
module N6Packets {
  import opened Netfilter
  import opened N6Nat
  import opened N6Runs

  /** Accepts by source or destination network, as the rules of every pool do. */
  predicate PoolRule(r: Rule) {
    r.target == Accept && (r.cond.Source? || r.cond.Destination?)
  }

  /** The pool rules on top of a chain. */
  function Top(rules: Chain): Chain {
    if |rules| > 0 && PoolRule(rules[0]) then [rules[0]] + Top(rules[1..]) else []
  }

  function Below(rules: Chain): Chain {
    if |rules| > 0 && PoolRule(rules[0]) then Below(rules[1..]) else rules
  }

  predicate SomeMatches(rules: Chain, p: Packet, other: Foreign) {
    exists r :: r in rules && Matches(r.cond, p, other)
  }

  /** The rules on top accept what any of them matches; the rest decides about everything else. */
  lemma {:induction false} TopDecides(rules: Chain, tables: Tables, open: set<string>, p: Packet, other: Foreign)
    ensures Walk(rules, tables, open, p, other) ==
      if SomeMatches(Top(rules), p, other) then Accepted else Walk(Below(rules), tables, open, p, other)
    decreases |rules|
  {
    if |rules| > 0 && PoolRule(rules[0]) {
      TopDecides(rules[1..], tables, open, p, other);
      assert Top(rules)[0] == rules[0] && Top(rules)[1..] == Top(rules[1..]);
      assert forall r :: r in Top(rules) <==> r == rules[0] || r in Top(rules[1..]);
    }
  }

  lemma {:induction false} Parts(rules: Chain)
    ensures Top(rules) + Below(rules) == rules
    ensures forall r | r in Top(rules) :: PoolRule(r)
  {
    if |rules| > 0 && PoolRule(rules[0]) { Parts(rules[1..]); }
  }

  // ----- what calls do to the part below -----

  lemma {:induction false} RemoveBelow(rules: Chain, q: Rule, r: Rule)
    requires r !in Below(rules)
    ensures r !in Below(RemoveFirst(rules, q))
  {
    if |rules| > 0 {
      if PoolRule(rules[0]) {
        if rules[0] != q {
          RemoveBelow(rules[1..], q, r);
          assert ([rules[0]] + RemoveFirst(rules[1..], q))[1..] == RemoveFirst(rules[1..], q);
        }
      } else {
        RemoveKeeps(rules, q, r);
        Parts(RemoveFirst(rules, q));
      }
    }
  }

  lemma {:induction false} RemoveKeeps(rules: Chain, q: Rule, r: Rule)
    requires r !in rules
    ensures r !in RemoveFirst(rules, q)
  {
    if |rules| > 0 && rules[0] != q { RemoveKeeps(rules[1..], q, r); }
  }

  lemma {:induction false} AppendBelow(rules: Chain, q: Rule, r: Rule)
    requires r !in Below(rules) && r != q
    ensures r !in Below(rules + [q])
  {
    if |rules| > 0 && PoolRule(rules[0]) {
      assert (rules + [q])[1..] == rules[1..] + [q];
      AppendBelow(rules[1..], q, r);
    }
  }

  /** In the filter table the program deletes and inserts pool rules and appends others. */
  predicate Shaped(cmd: Cmd) {
    !cmd.SeeDocker? && cmd.table == FilterTable ==> (PoolRule(cmd.rule) <==> !cmd.AppendUnique?)
  }

  predicate AllShaped(todo: seq<Cmd>) {
    forall cmd | cmd in todo :: Shaped(cmd)
  }

  lemma CallBelow(t: Tables, cmd: Cmd, k: string, r: Rule)
    requires !cmd.SeeDocker? && Shaped(cmd) && cmd.table == FilterTable && k in t && PoolRule(r) && r !in Below(t[k])
    ensures var u := OnTable(t, cmd); k in u && r !in Below(u[k])
  {
    var rules := t[k];
    if k == cmd.chain {
      match cmd
      case Delete(_, _, q) => RemoveBelow(rules, q, r);
      case Insert(_, _, q) => assert ([q] + rules)[1..] == rules;
      case AppendUnique(_, _, q) => AppendBelow(rules, q, r);
    }
  }

  lemma ProgramShaped(c: Config)
    ensures AllShaped(Program(c)) && AllShaped(DockerCmds(c))
  {
  }

  lemma StepShaped(s: State, e: Event)
    requires AllShaped(s.todo)
    ensures AllShaped(Step(s, e).todo)
  {
    if e.Begin? {
      ProgramShaped(e.config);
    } else if e.CallEnd? && s.todo != [] && s.todo[0].SeeDocker? {
      ProgramShaped(s.todo[0].config);
    }
  }

  // ----- whether a rule is in place -----

  predicate Effective(s: State, e: Event, cmd: Cmd) {
    e == CallEnd(true) && s.todo != [] && s.todo[0] == cmd
  }

  /** The last call on the rule in that chain that took effect was its insertion; `before` tells how it began. */
  predicate InAfter(s: State, events: seq<Event>, k: string, r: Rule, before: bool)
    decreases |events|
  {
    if |events| == 0 then before
    else
      InAfter(Step(s, events[0]), events[1..], k, r,
              if Effective(s, events[0], Cmd.Delete(FilterTable, k, r)) then false
              else if Effective(s, events[0], Cmd.Insert(FilterTable, k, r)) then true
              else before)
  }

  /** The pool's rule is not buried under others' rules. */
  predicate Unburied(s: State, k: string, r: Rule) {
    k in s.firewall.filterTable && r !in Below(s.firewall.filterTable[k])
  }

  /** The state of a rule across one event. */
  lemma StepInPlace(s: State, e: Event, configs: set<Config>, k: string, r: Rule)
    requires Once(s, ManagedRules(configs)) && AllShaped(s.todo) && !e.Edit? && r in ManagedRules(configs)
    requires PoolRule(r) && Unburied(s, k, r)
    ensures var t := Step(s, e);
      && Unburied(t, k, r)
      && (r in t.firewall.filterTable[k] <==>
            if Effective(s, e, Cmd.Delete(FilterTable, k, r)) then false
            else if Effective(s, e, Cmd.Insert(FilterTable, k, r)) then true
            else r in s.firewall.filterTable[k])
  {
    if e == CallEnd(true) && s.todo != [] && !s.todo[0].SeeDocker? && s.todo[0].table == FilterTable {
      var t, cmd := s.firewall.filterTable, s.todo[0];
      assert cmd in s.todo;
      CallBelow(t, cmd, k, r);
      CallCopies(t, cmd, k, r);
      assert AtMostOnce(TableOf(s.firewall, FilterTable), ManagedRules(configs));
      assert Count(t[k], r) <= 1;
      assert Performed(s.firewall, cmd).filterTable == OnTable(t, cmd);
    }
  }

  /**
   * Over any run of calls and crashes in which no insertion is blind: the rule of a pool is in its chain exactly if the
   * last call on it that took effect was not its deletion, and nobody else's rule gets in front of it.
   */
  lemma {:induction false} InPlaceIff(s: State, events: seq<Event>, configs: set<Config>, k: string, r: Rule)
    requires Once(s, ManagedRules(configs)) && Orderly(s.todo, ManagedRules(configs)) && AllShaped(s.todo)
    requires AllAllowed(s, events, configs) && NeverBlind(s, events) && forall e | e in events :: !e.Edit?
    requires r in ManagedRules(configs) && PoolRule(r) && Unburied(s, k, r)
    ensures var t := Run(s, events);
      && Unburied(t, k, r)
      && (r in t.firewall.filterTable[k] <==> InAfter(s, events, k, r, r in s.firewall.filterTable[k]))
    decreases |events|
  {
    if |events| > 0 {
      var e := events[0];
      assert e in events && forall d | d in events[1..] :: d in events;
      StepInPlace(s, e, configs, k, r);
      StepOnceIff(s, e, configs);
      StepOrderly(s, e, configs);
      StepShaped(s, e);
      InPlaceIff(Step(s, e), events[1..], configs, k, r);
    }
  }

  /** An insertion that is not blind brings the rule on top, wherever it had been. */
  lemma InsertedOnTop(s: State, k: string, r: Rule)
    requires s.todo != [] && s.todo[0] == Cmd.Insert(FilterTable, k, r) && k in s.firewall.filterTable && PoolRule(r)
    requires !Blind(s, CallEnd(true))
    ensures var t := Step(s, CallEnd(true)); Unburied(t, k, r) && r in Top(t.firewall.filterTable[k])
  {
    var rules := s.firewall.filterTable[k];
    assert Step(s, CallEnd(true)).firewall.filterTable[k] == [r] + rules;
    assert ([r] + rules)[0] == r && ([r] + rules)[1..] == rules;
    Parts(rules);
  }

  // ----- packets -----

  /** A rule of the pool that matches the packet is in place. */
  predicate Serves(c: Config, p: Packet, from: bool, to: bool) {
    (c.pool.Holds(p.src) && from) || (c.pool.Holds(p.dst) && to)
  }

  /** A rule of another pool on top of the chain matches the packet. */
  predicate OthersServe(rules: Chain, c: Config, p: Packet, other: Foreign) {
    exists r :: r in Top(rules) && r != FromPool(c) && r != ToPool(c) && Matches(r.cond, p, other)
  }

  lemma WhoServes(rules: Chain, c: Config, p: Packet, other: Foreign)
    requires FromPool(c) !in Below(rules) && ToPool(c) !in Below(rules)
    ensures SomeMatches(Top(rules), p, other) <==>
      Serves(c, p, FromPool(c) in rules, ToPool(c) in rules) || OthersServe(rules, c, p, other)
  {
    Parts(rules);
    assert forall r | r in rules :: r in Top(rules) || r in Below(rules);
    assert Matches(FromPool(c).cond, p, other) <==> c.pool.Holds(p.src);
    assert Matches(ToPool(c).cond, p, other) <==> c.pool.Holds(p.dst);
    if Serves(c, p, FromPool(c) in rules, ToPool(c) in rules) {
      assert FromPool(c) in rules ==> FromPool(c) in Top(rules);
      assert ToPool(c) in rules ==> ToPool(c) in Top(rules);
    }
  }

  /** What the rules below would say. */
  function BelowVerdict(t: Tables, k: string, policy: Verdict, p: Packet, other: Foreign): Verdict
    requires k in t
  {
    var v := Walk(Below(t[k]), t, t.Keys - {k}, p, other);
    if v == Undecided then policy else v
  }

  lemma ServedOrBelow(t: Tables, k: string, c: Config, policy: Verdict, p: Packet, other: Foreign)
    requires k in t && FromPool(c) !in Below(t[k]) && ToPool(c) !in Below(t[k])
    ensures ChainVerdict(t, k, policy, p, other) ==
      if Serves(c, p, FromPool(c) in t[k], ToPool(c) in t[k]) || OthersServe(t[k], c, p, other) then Accepted
      else BelowVerdict(t, k, policy, p, other)
  {
    TopDecides(t[k], t, t.Keys - {k}, p, other);
    WhoServes(t[k], c, p, other);
  }

  /**
   * Once no rule of the pool is buried under others' rules, in every later state of every such run: a packet that a
   * rule of the pool matches is accepted as long as the last call on that rule that took effect was not its deletion;
   * otherwise another pool's rule on top accepts it, or the rules below decide.
   */
  lemma PoolPackets(s: State, events: seq<Event>, configs: set<Config>, c: Config, k: string, policy: Verdict,
                    p: Packet, other: Foreign)
    requires Once(s, ManagedRules(configs)) && Orderly(s.todo, ManagedRules(configs)) && AllShaped(s.todo)
    requires AllAllowed(s, events, configs) && NeverBlind(s, events) && forall e | e in events :: !e.Edit?
    requires c in configs && Unburied(s, k, FromPool(c)) && Unburied(s, k, ToPool(c))
    ensures var t, now := s.firewall.filterTable, Run(s, events).firewall.filterTable;
      var from := InAfter(s, events, k, FromPool(c), FromPool(c) in t[k]);
      var to := InAfter(s, events, k, ToPool(c), ToPool(c) in t[k]);
      && k in now
      && ChainVerdict(now, k, policy, p, other) ==
           if Serves(c, p, from, to) || OthersServe(now[k], c, p, other) then Accepted
           else BelowVerdict(now, k, policy, p, other)
  {
    ManagedOf(configs, c);
    assert FromPool(c) in ManagedBy(c) && ToPool(c) in ManagedBy(c);
    InPlaceIff(s, events, configs, k, FromPool(c));
    InPlaceIff(s, events, configs, k, ToPool(c));
    ServedOrBelow(Run(s, events).firewall.filterTable, k, c, policy, p, other);
  }
}

/** Rule chains with first-match semantics, jumps into user chains, and the edits a program makes to them. */
module Netfilter {
  /** The addresses of a network, lo..hi. */
  datatype Pool = Pool(lo: nat, hi: nat) {
    predicate Holds(a: nat) { lo <= a <= hi }
  }

  /** A forwarded packet; `tag` stands for everything only other people's rules look at. */
  datatype Packet = Packet(src: nat, dst: nat, inIf: string, outIf: string, tcpSyn: bool, tag: nat)

  /** What a rule asks of a packet. The operator writes the first six forms; Other is anybody else's condition. */
  datatype Match =
    | Source(pool: Pool)
    | Destination(pool: Pool)
    | SourceOut(pool: Pool, nic: string)
    | Hairpin(bridge: string)
    | SynSource(pool: Pool)
    | SynDestination(pool: Pool)
    | Other(id: nat)

  /** Continue is any target that does not decide, such as TCPMSS or LOG. */
  datatype Target = Accept | Drop | Return | Masquerade | Continue | Jump(chain: string)

  datatype Rule = Rule(cond: Match, target: Target)

  type Chain = seq<Rule>
  type Tables = map<string, Chain>

  /** How foreign conditions judge packets. */
  type Foreign = (nat, Packet) -> bool

  predicate Matches(m: Match, p: Packet, other: Foreign) {
    match m
    case Source(pool) => pool.Holds(p.src)
    case Destination(pool) => pool.Holds(p.dst)
    case SourceOut(pool, nic) => pool.Holds(p.src) && p.outIf == nic
    case Hairpin(bridge) => p.inIf == bridge && p.outIf == bridge
    case SynSource(pool) => p.tcpSyn && pool.Holds(p.src)
    case SynDestination(pool) => p.tcpSyn && pool.Holds(p.dst)
    case Other(id) => other(id, p)
  }

  datatype Verdict = Accepted | Dropped | Translated | Undecided

  /**
   * Walks `rules`; `open` are the chains a jump may still enter. The kernel refuses to load tables with a cycle or a
   * jump to nowhere, so the last arm of a jump is never reached in a loaded table.
   */
  function Walk(rules: Chain, tables: Tables, open: set<string>, p: Packet, other: Foreign): Verdict
    decreases open, |rules|
  {
    if |rules| == 0 then Undecided
    else if !Matches(rules[0].cond, p, other) then Walk(rules[1..], tables, open, p, other)
    else match rules[0].target
      case Accept => Accepted
      case Drop => Dropped
      case Return => Undecided
      case Masquerade => Translated
      case Continue => Walk(rules[1..], tables, open, p, other)
      case Jump(c) =>
        if c in open && c in tables then
          var v := Walk(tables[c], tables, open - {c}, p, other);
          if v == Undecided then Walk(rules[1..], tables, open, p, other) else v
        else Dropped
  }

  /** The verdict of a built-in chain: its rules, else its policy. */
  function ChainVerdict(tables: Tables, chain: string, policy: Verdict, p: Packet, other: Foreign): Verdict {
    if chain !in tables then policy
    else
      var v := Walk(tables[chain], tables, tables.Keys - {chain}, p, other);
      if v == Undecided then policy else v
  }

  // ----- which rules matter to a packet -----

  function Relevant(rules: Chain, p: Packet, other: Foreign): Chain {
    if |rules| == 0 then []
    else if Matches(rules[0].cond, p, other) then [rules[0]] + Relevant(rules[1..], p, other)
    else Relevant(rules[1..], p, other)
  }

  lemma {:induction false} RelevantAppend(a: Chain, b: Chain, p: Packet, other: Foreign)
    ensures Relevant(a + b, p, other) == Relevant(a, p, other) + Relevant(b, p, other)
  {
    if |a| == 0 {
      assert a + b == b;
    } else {
      assert (a + b)[1..] == a[1..] + b;
      RelevantAppend(a[1..], b, p, other);
    }
  }

  ghost predicate AgreeFor(t: Tables, u: Tables, p: Packet, other: Foreign) {
    t.Keys == u.Keys && forall c | c in t :: Relevant(t[c], p, other) == Relevant(u[c], p, other)
  }

  /** Two tables that agree on the rules a packet matches give it the same verdict, through every jump. */
  lemma {:induction false} WalkAgrees(rules: Chain, others: Chain, t: Tables, u: Tables, open: set<string>,
                                      p: Packet, other: Foreign)
    requires Relevant(rules, p, other) == Relevant(others, p, other) && AgreeFor(t, u, p, other)
    ensures Walk(rules, t, open, p, other) == Walk(others, u, open, p, other)
    decreases open, |rules| + |others|
  {
    if |rules| > 0 && !Matches(rules[0].cond, p, other) {
      WalkAgrees(rules[1..], others, t, u, open, p, other);
    } else if |others| > 0 && !Matches(others[0].cond, p, other) {
      WalkAgrees(rules, others[1..], t, u, open, p, other);
    } else if |rules| > 0 && |others| > 0 {
      assert rules[0] == Relevant(rules, p, other)[0] == others[0];
      assert Relevant(rules[1..], p, other) == Relevant(rules, p, other)[1..];
      assert Relevant(others[1..], p, other) == Relevant(others, p, other)[1..];
      WalkAgrees(rules[1..], others[1..], t, u, open, p, other);
      if rules[0].target.Jump? {
        var c := rules[0].target.chain;
        if c in open && c in t {
          WalkAgrees(t[c], u[c], t, u, open - {c}, p, other);
        }
      }
    }
  }

  lemma VerdictAgrees(t: Tables, u: Tables, chain: string, policy: Verdict, p: Packet, other: Foreign)
    requires AgreeFor(t, u, p, other)
    ensures ChainVerdict(t, chain, policy, p, other) == ChainVerdict(u, chain, policy, p, other)
  {
    if chain in t {
      WalkAgrees(t[chain], u[chain], t, u, t.Keys - {chain}, p, other);
    }
  }

  // ----- edits -----

  function Count(rules: Chain, r: Rule): nat {
    multiset(rules)[r]
  }

  /** `-D`: removes the first matching rule. */
  function RemoveFirst(rules: Chain, r: Rule): Chain {
    if |rules| == 0 then []
    else if rules[0] == r then rules[1..] else [rules[0]] + RemoveFirst(rules[1..], r)
  }

  lemma {:induction false} RemoveCounts(rules: Chain, r: Rule)
    ensures multiset(RemoveFirst(rules, r)) == multiset(rules) - multiset{r}
  {
    if |rules| > 0 {
      assert rules == [rules[0]] + rules[1..];
      if rules[0] != r { RemoveCounts(rules[1..], r); }
    }
  }

  /** `-C` and then `-A` when absent. */
  function AppendUnique(rules: Chain, r: Rule): Chain {
    if r in rules then rules else rules + [r]
  }

  lemma {:induction false} RemoveSkips(front: Chain, back: Chain, r: Rule)
    requires r !in front
    ensures RemoveFirst(front + back, r) == front + RemoveFirst(back, r)
  {
    if |front| == 0 {
      assert front + back == back;
    } else {
      assert (front + back)[1..] == front[1..] + back;
      RemoveSkips(front[1..], back, r);
    }
  }

  lemma RemoveHead(r: Rule, back: Chain)
    ensures RemoveFirst([r] + back, r) == back
  {
    assert ([r] + back)[1..] == back;
  }

  lemma {:induction false} RemoveAbsent(rules: Chain, r: Rule)
    requires r !in rules
    ensures RemoveFirst(rules, r) == rules
  {
    if |rules| > 0 {
      assert r !in rules[1..];
      RemoveAbsent(rules[1..], r);
    }
  }

  lemma {:induction false} RemoveIrrelevant(rules: Chain, r: Rule, p: Packet, other: Foreign)
    requires !Matches(r.cond, p, other)
    ensures Relevant(RemoveFirst(rules, r), p, other) == Relevant(rules, p, other)
  {
    if |rules| > 0 && rules[0] != r {
      RemoveIrrelevant(rules[1..], r, p, other);
      assert ([rules[0]] + RemoveFirst(rules[1..], r))[1..] == RemoveFirst(rules[1..], r);
    }
  }

  /** The rules of a chain that lie outside `managed`, in order. */
  ghost function Unmanaged(rules: Chain, managed: set<Rule>): Chain {
    if |rules| == 0 then []
    else if rules[0] in managed then Unmanaged(rules[1..], managed)
    else [rules[0]] + Unmanaged(rules[1..], managed)
  }

  lemma {:induction false} UnmanagedAppend(a: Chain, b: Chain, managed: set<Rule>)
    ensures Unmanaged(a + b, managed) == Unmanaged(a, managed) + Unmanaged(b, managed)
  {
    if |a| == 0 {
      assert a + b == b;
    } else {
      assert (a + b)[1..] == a[1..] + b;
      UnmanagedAppend(a[1..], b, managed);
    }
  }

  lemma {:induction false} UnmanagedRemove(rules: Chain, r: Rule, managed: set<Rule>)
    requires r in managed
    ensures Unmanaged(RemoveFirst(rules, r), managed) == Unmanaged(rules, managed)
  {
    if |rules| > 0 && rules[0] != r {
      UnmanagedRemove(rules[1..], r, managed);
      assert ([rules[0]] + RemoveFirst(rules[1..], r))[1..] == RemoveFirst(rules[1..], r);
    }
  }

  /** A chain with each managed rule at most once is no longer than its unmanaged rules and the managed set together. */
  lemma {:induction false} LengthBound(rules: Chain, managed: set<Rule>)
    requires forall r | r in managed :: Count(rules, r) <= 1
    ensures |rules| <= |Unmanaged(rules, managed)| + |managed|
  {
    if |rules| > 0 {
      var head, tail := rules[0], rules[1..];
      assert rules == [head] + tail;
      assert multiset(rules) == multiset{head} + multiset(tail);
      if head in managed {
        assert Count(tail, head) == 0;
        forall r | r in managed - {head} ensures Count(tail, r) <= 1 {
          assert Count(rules, r) <= 1;
        }
        UnmanagedAbsent(tail, managed, head);
        LengthBound(tail, managed - {head});
      } else {
        forall r | r in managed ensures Count(tail, r) <= 1 {
          assert Count(rules, r) <= 1;
        }
        LengthBound(tail, managed);
      }
    }
  }

  lemma {:induction false} UnmanagedAbsent(rules: Chain, managed: set<Rule>, r: Rule)
    requires Count(rules, r) == 0
    ensures Unmanaged(rules, managed) == Unmanaged(rules, managed - {r})
  {
    if |rules| > 0 {
      assert rules == [rules[0]] + rules[1..];
      assert rules[0] in multiset(rules);
      UnmanagedAbsent(rules[1..], managed, r);
    }
  }
}

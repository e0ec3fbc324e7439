/**
 * The N6 firewall program call by call. Between any two calls others may edit the chains, and the program may die.
 */
module N6Runs {
  import opened Netfilter
  import opened N6Nat

  datatype Table = NatTable | FilterTable | MangleTable

  /** The calls of the program; SeeDocker decides whether the pool pair goes to DOCKER-USER as well. */
  datatype Cmd =
    | Delete(table: Table, chain: string, rule: Rule)
    | Insert(table: Table, chain: string, rule: Rule)
    | AppendUnique(table: Table, chain: string, rule: Rule)
    | SeeDocker(config: Config)

  function Pair(table: Table, chain: string, r: Rule): seq<Cmd> {
    [Cmd.Delete(table, chain, r), Cmd.Insert(table, chain, r)]
  }

  function DockerCmds(c: Config): seq<Cmd> {
    Pair(FilterTable, DOCKER_USER, FromPool(c)) + Pair(FilterTable, DOCKER_USER, ToPool(c))
  }

  function MangleCmds(c: Config): seq<Cmd> {
    [Cmd.AppendUnique(MangleTable, FORWARD, ClampFrom(c)), Cmd.AppendUnique(MangleTable, FORWARD, ClampTo(c))]
  }

  function Program(c: Config): seq<Cmd> {
    Pair(NatTable, POSTROUTING, Masq(c)) + (Pair(FilterTable, FORWARD, FromPool(c))
      + (Pair(FilterTable, FORWARD, ToPool(c))
      + ([Cmd.AppendUnique(FilterTable, FORWARD, HairpinRule(c))] + ([SeeDocker(c)] + MangleCmds(c)))))
  }

  /** The chains, the calls still to make, and whether the last call took effect. */
  datatype State = State(firewall: Firewall, todo: seq<Cmd>, took: bool)

  datatype Event = Begin(config: Config) | CallEnd(effective: bool) | Edit(after: Firewall) | Crash

  function TableOf(f: Firewall, table: Table): Tables {
    match table
    case NatTable => f.natTable
    case FilterTable => f.filterTable
    case MangleTable => f.mangleTable
  }

  function WithTable(f: Firewall, table: Table, t: Tables): Firewall {
    match table
    case NatTable => f.(natTable := t)
    case FilterTable => f.(filterTable := t)
    case MangleTable => f.(mangleTable := t)
  }

  function OnTable(t: Tables, cmd: Cmd): Tables
    requires !cmd.SeeDocker?
  {
    match cmd
    case Delete(_, chain, r) => N6Nat.DeleteIfExists(t, chain, r, true)
    case Insert(_, chain, r) => N6Nat.Insert(t, chain, r, true)
    case AppendUnique(_, chain, r) => N6Nat.Append(t, chain, r, true)
  }

  function Performed(f: Firewall, cmd: Cmd): Firewall {
    if cmd.SeeDocker? then f else WithTable(f, cmd.table, OnTable(TableOf(f, cmd.table), cmd))
  }

  function Following(s: State, effective: bool): seq<Cmd>
    requires s.todo != []
  {
    if s.todo[0].SeeDocker? && effective && DOCKER_USER in s.firewall.filterTable
    then DockerCmds(s.todo[0].config) + s.todo[1..] else s.todo[1..]
  }

  function Step(s: State, e: Event): State {
    match e
    case Begin(c) => if s.todo == [] then State(s.firewall, Program(c), false) else s
    case CallEnd(effective) =>
      if s.todo == [] then s
      else State(if effective then Performed(s.firewall, s.todo[0]) else s.firewall, Following(s, effective), effective)
    case Edit(g) => s.(firewall := g)
    case Crash => s.(todo := [])
  }

  function Run(s: State, events: seq<Event>): State
    decreases |events|
  {
    if |events| == 0 then s else Run(Step(s, events[0]), events[1..])
  }

  // ----- undisturbed, the calls are the pass -----

  predicate Answer(cmd: Cmd, ok: Oracle) {
    match cmd
    case Delete(_, chain, r) => ok(DeleteRule(chain, r))
    case Insert(_, chain, r) => ok(InsertRule(chain, r))
    case AppendUnique(_, _, r) => ok(AppendRule(r))
    case SeeDocker(_) => ok(SeeChain(DOCKER_USER))
  }

  function Left(todo: seq<Cmd>): nat {
    if |todo| == 0 then 0 else (if todo[0].SeeDocker? then 5 else 1) + Left(todo[1..])
  }

  lemma {:induction false} LeftAppend(a: seq<Cmd>, b: seq<Cmd>)
    ensures Left(a + b) == Left(a) + Left(b)
  {
    if |a| == 0 {
      assert a + b == b;
    } else {
      assert (a + b)[1..] == a[1..] + b;
      LeftAppend(a[1..], b);
    }
  }

  lemma DockerLeft(c: Config)
    ensures Left(DockerCmds(c)) == 4
  {
    var d := DockerCmds(c);
    assert d == [d[0]] + ([d[1]] + ([d[2]] + [d[3]]));
    LeftAppend([d[0]], [d[1]] + ([d[2]] + [d[3]]));
    LeftAppend([d[1]], [d[2]] + [d[3]]);
    LeftAppend([d[2]], [d[3]]);
  }

  lemma LessLeft(s: State, effective: bool)
    requires s.todo != []
    ensures Left(Following(s, effective)) < Left(s.todo)
  {
    if s.todo[0].SeeDocker? {
      DockerLeft(s.todo[0].config);
      LeftAppend(DockerCmds(s.todo[0].config), s.todo[1..]);
    }
  }

  /** The calls left, each ending as the oracle says. */
  lemma {:induction false} Finish(s: State, ok: Oracle) returns (events: seq<Event>)
    ensures forall e | e in events :: e.CallEnd?
    ensures Run(s, events) == Finished(s, ok)
    decreases Left(s.todo)
  {
    if s.todo == [] {
      events := [];
    } else {
      var e := CallEnd(Answer(s.todo[0], ok));
      LessLeft(s, Answer(s.todo[0], ok));
      var more := Finish(Step(s, e), ok);
      events := [e] + more;
      assert events[1..] == more;
    }
  }

  function Finished(s: State, ok: Oracle): State
    decreases Left(s.todo)
  {
    if s.todo == [] then s
    else
      LessLeft(s, Answer(s.todo[0], ok));
      Finished(Step(s, CallEnd(Answer(s.todo[0], ok))), ok)
  }

  /** `took` has no bearing on what the calls do. */
  lemma {:induction false} TookForgotten(f: Firewall, todo: seq<Cmd>, a: bool, b: bool, ok: Oracle)
    ensures Finished(State(f, todo, a), ok).firewall == Finished(State(f, todo, b), ok).firewall
  {
    if todo != [] {
      assert Step(State(f, todo, a), CallEnd(Answer(todo[0], ok))) ==
        Step(State(f, todo, b), CallEnd(Answer(todo[0], ok)));
    }
  }

  function Rest(f: Firewall, todo: seq<Cmd>, ok: Oracle): Firewall {
    Finished(State(f, todo, false), ok).firewall
  }

  lemma OneCall(f: Firewall, cmd: Cmd, rest: seq<Cmd>, ok: Oracle)
    requires !cmd.SeeDocker?
    ensures Rest(f, [cmd] + rest, ok) == Rest(if Answer(cmd, ok) then Performed(f, cmd) else f, rest, ok)
  {
    var g := if Answer(cmd, ok) then Performed(f, cmd) else f;
    assert ([cmd] + rest)[1..] == rest;
    assert Step(State(f, [cmd] + rest, false), CallEnd(Answer(cmd, ok))) == State(g, rest, Answer(cmd, ok));
    TookForgotten(g, rest, Answer(cmd, ok), false, ok);
  }

  lemma PairCall(f: Firewall, table: Table, chain: string, r: Rule, rest: seq<Cmd>, ok: Oracle)
    ensures Rest(f, Pair(table, chain, r) + rest, ok) ==
            Rest(WithTable(f, table, Reinsert(TableOf(f, table), chain, r, ok)), rest, ok)
  {
    var del, ins := Cmd.Delete(table, chain, r), Cmd.Insert(table, chain, r);
    assert Pair(table, chain, r) + rest == [del] + ([ins] + rest);
    OneCall(f, del, [ins] + rest, ok);
    OneCall(if Answer(del, ok) then Performed(f, del) else f, ins, rest, ok);
  }

  lemma AppendCall(f: Firewall, table: Table, r: Rule, rest: seq<Cmd>, ok: Oracle)
    ensures Rest(f, [Cmd.AppendUnique(table, FORWARD, r)] + rest, ok) ==
            Rest(WithTable(f, table, N6Nat.Append(TableOf(f, table), FORWARD, r, ok(AppendRule(r)))), rest, ok)
  {
    OneCall(f, Cmd.AppendUnique(table, FORWARD, r), rest, ok);
  }

  lemma DockerCall(f: Firewall, c: Config, rest: seq<Cmd>, ok: Oracle)
    ensures var t := f.filterTable;
      Rest(f, [SeeDocker(c)] + rest, ok) ==
      if ok(SeeChain(DOCKER_USER)) && DOCKER_USER in t
      then Rest(f.(filterTable := Reinsert(Reinsert(t, DOCKER_USER, FromPool(c), ok), DOCKER_USER, ToPool(c), ok)),
        rest, ok)
      else Rest(f, rest, ok)
  {
    var s := State(f, [SeeDocker(c)] + rest, false);
    var sees := ok(SeeChain(DOCKER_USER));
    assert s.todo[1..] == rest;
    var following := Following(s, sees);
    assert Step(s, CallEnd(sees)) == State(f, following, sees);
    TookForgotten(f, following, sees, false, ok);
    if sees && DOCKER_USER in f.filterTable {
      var one := Pair(FilterTable, DOCKER_USER, ToPool(c)) + rest;
      assert following == Pair(FilterTable, DOCKER_USER, FromPool(c)) + one;
      PairCall(f, FilterTable, DOCKER_USER, FromPool(c), one, ok);
      PairCall(f.(filterTable := Reinsert(f.filterTable, DOCKER_USER, FromPool(c), ok)), FilterTable, DOCKER_USER,
        ToPool(c), rest, ok);
    }
  }

  /** Undisturbed, the calls do exactly what the pass does. */
  lemma CallsAreThePass(f: Firewall, c: Config, ok: Oracle)
    ensures Rest(f, Program(c), ok) == Pass(f, c, ok)
  {
    var mangle := MangleCmds(c);
    var docker := [SeeDocker(c)] + mangle;
    var hairpin := [Cmd.AppendUnique(FilterTable, FORWARD, HairpinRule(c))] + docker;
    var toPool := Pair(FilterTable, FORWARD, ToPool(c)) + hairpin;
    PairCall(f, NatTable, POSTROUTING, Masq(c), Pair(FilterTable, FORWARD, FromPool(c)) + toPool, ok);
    var f1 := f.(natTable := Reinsert(f.natTable, POSTROUTING, Masq(c), ok));
    PairCall(f1, FilterTable, FORWARD, FromPool(c), toPool, ok);
    var f2 := f1.(filterTable := Reinsert(f.filterTable, FORWARD, FromPool(c), ok));
    PairCall(f2, FilterTable, FORWARD, ToPool(c), hairpin, ok);
    FromHairpin(f2.(filterTable := Reinsert(f2.filterTable, FORWARD, ToPool(c), ok)), c, ok);
  }

  lemma FromHairpin(f: Firewall, c: Config, ok: Oracle)
    ensures var t := N6Nat.Append(f.filterTable, FORWARD, HairpinRule(c), ok(AppendRule(HairpinRule(c))));
      var u := if ok(SeeChain(DOCKER_USER)) && DOCKER_USER in t
               then Reinsert(Reinsert(t, DOCKER_USER, FromPool(c), ok), DOCKER_USER, ToPool(c), ok) else t;
      Rest(f, [Cmd.AppendUnique(FilterTable, FORWARD, HairpinRule(c))] + ([SeeDocker(c)] + MangleCmds(c)), ok) ==
      Firewall(f.natTable, u, ManglePass(f.mangleTable, c, ok))
  {
    var t := N6Nat.Append(f.filterTable, FORWARD, HairpinRule(c), ok(AppendRule(HairpinRule(c))));
    AppendCall(f, FilterTable, HairpinRule(c), [SeeDocker(c)] + MangleCmds(c), ok);
    DockerCall(f.(filterTable := t), c, MangleCmds(c), ok);
    var u := if ok(SeeChain(DOCKER_USER)) && DOCKER_USER in t
             then Reinsert(Reinsert(t, DOCKER_USER, FromPool(c), ok), DOCKER_USER, ToPool(c), ok) else t;
    MangleCalls(f.(filterTable := u), c, ok);
  }

  lemma MangleCalls(f: Firewall, c: Config, ok: Oracle)
    ensures Rest(f, MangleCmds(c), ok) == f.(mangleTable := ManglePass(f.mangleTable, c, ok))
  {
    var last := Cmd.AppendUnique(MangleTable, FORWARD, ClampTo(c));
    assert MangleCmds(c) == [Cmd.AppendUnique(MangleTable, FORWARD, ClampFrom(c))] + ([last] + []);
    AppendCall(f, MangleTable, ClampFrom(c), [last] + [], ok);
    AppendCall(f.(mangleTable := N6Nat.Append(f.mangleTable, FORWARD, ClampFrom(c), ok(AppendRule(ClampFrom(c))))),
               MangleTable, ClampTo(c), [], ok);
  }

  // ----- copies over runs -----

  function ManagedRules(configs: set<Config>): set<Rule> {
    set c, r | c in configs && r in ManagedBy(c) :: r
  }

  /** An edit by others adds no copy of a managed rule. */
  ghost predicate AddsNoCopy(before: Tables, after: Tables, managed: set<Rule>) {
    forall k, r | k in after && r in managed :: Count(after[k], r) <= if k in before then Count(before[k], r) else 0
  }

  ghost predicate Allowed(f: Firewall, e: Event, configs: set<Config>) {
    match e
    case Begin(c) => c in configs
    case Edit(g) => forall t: Table :: AddsNoCopy(TableOf(f, t), TableOf(g, t), ManagedRules(configs))
    case _ => true
  }

  ghost predicate AllAllowed(s: State, events: seq<Event>, configs: set<Config>)
    decreases |events|
  {
    |events| == 0 || (Allowed(s.firewall, events[0], configs) && AllAllowed(Step(s, events[0]), events[1..], configs))
  }

  /** An insertion takes effect while its rule is there. */
  predicate Blind(s: State, e: Event) {
    && e == CallEnd(true) && s.todo != [] && s.todo[0].Insert?
    && s.todo[0].chain in TableOf(s.firewall, s.todo[0].table)
    && s.todo[0].rule in TableOf(s.firewall, s.todo[0].table)[s.todo[0].chain]
  }

  predicate NeverBlind(s: State, events: seq<Event>)
    decreases |events|
  {
    |events| == 0 || (!Blind(s, events[0]) && NeverBlind(Step(s, events[0]), events[1..]))
  }

  ghost predicate Once(s: State, managed: set<Rule>) {
    forall t: Table :: AtMostOnce(TableOf(s.firewall, t), managed)
  }

  ghost predicate OnceThroughout(s: State, events: seq<Event>, managed: set<Rule>)
    decreases |events|
  {
    Once(s, managed) && (|events| > 0 ==> OnceThroughout(Step(s, events[0]), events[1..], managed))
  }

  predicate ManagedCmd(cmd: Cmd, managed: set<Rule>) {
    if cmd.SeeDocker? then ManagedBy(cmd.config) <= managed else cmd.rule in managed
  }

  /** Every insertion comes right after the deletion of its rule. */
  predicate AfterDelete(todo: seq<Cmd>, i: nat)
    requires i < |todo|
  {
    todo[i].Insert? && i > 0 ==> todo[i - 1] == Cmd.Delete(todo[i].table, todo[i].chain, todo[i].rule)
  }

  ghost predicate Orderly(todo: seq<Cmd>, managed: set<Rule>) {
    && (forall cmd | cmd in todo :: ManagedCmd(cmd, managed))
    && forall i: nat | i < |todo| :: AfterDelete(todo, i)
  }

  /** If the next call is an insertion and the deletion before it took effect, the rule is not there. */
  ghost predicate Cleared(s: State) {
    s.todo != [] && s.todo[0].Insert? && s.took ==>
      var t := TableOf(s.firewall, s.todo[0].table);
      s.todo[0].chain in t ==> Count(t[s.todo[0].chain], s.todo[0].rule) == 0
  }

  lemma ManagedOf(configs: set<Config>, c: Config)
    requires c in configs
    ensures ManagedBy(c) <= ManagedRules(configs)
  {
  }

  lemma ProgramOrderly(c: Config, managed: set<Rule>)
    requires ManagedBy(c) <= managed
    ensures Orderly(Program(c), managed) && Orderly(DockerCmds(c), managed)
    ensures !Program(c)[0].Insert? && !DockerCmds(c)[0].Insert?
  {
    assert Masq(c) in managed && FromPool(c) in managed && ToPool(c) in managed
        && HairpinRule(c) in managed && ClampFrom(c) in managed && ClampTo(c) in managed;
    var p := Program(c);
    assert |p| == 10 && p[0].Delete? && p[1].Insert? && p[2].Delete? && p[3].Insert? && p[4].Delete? && p[5].Insert?;
  }

  lemma OrderlyTail(todo: seq<Cmd>, managed: set<Rule>)
    requires todo != [] && Orderly(todo, managed)
    ensures Orderly(todo[1..], managed)
  {
    var rest := todo[1..];
    forall i: nat | i < |rest| ensures AfterDelete(rest, i) {
      assert AfterDelete(todo, i + 1);
    }
  }

  lemma OrderlyJoin(a: seq<Cmd>, b: seq<Cmd>, managed: set<Rule>)
    requires Orderly(a, managed) && Orderly(b, managed) && (b != [] ==> !b[0].Insert?)
    ensures Orderly(a + b, managed)
  {
    var all := a + b;
    forall i: nat | i < |all| ensures AfterDelete(all, i) {
      if i < |a| { assert AfterDelete(a, i); } else { assert AfterDelete(b, i - |a|); }
    }
  }

  lemma StepOrderly(s: State, e: Event, configs: set<Config>)
    requires Orderly(s.todo, ManagedRules(configs)) && Allowed(s.firewall, e, configs)
    ensures Orderly(Step(s, e).todo, ManagedRules(configs))
  {
    var managed := ManagedRules(configs);
    if e.Begin? {
      ManagedOf(configs, e.config);
      ProgramOrderly(e.config, managed);
    } else if e.CallEnd? && s.todo != [] {
      OrderlyTail(s.todo, managed);
      if s.todo[0].SeeDocker? {
        assert s.todo[0] in s.todo;
        ProgramOrderly(s.todo[0].config, managed);
        if |s.todo| > 1 { assert AfterDelete(s.todo, 1); }
        OrderlyJoin(DockerCmds(s.todo[0].config), s.todo[1..], managed);
      }
    }
  }

  // ----- one call -----

  /** What a call that takes effect does to the copies of a rule. */
  lemma CallCopies(t: Tables, cmd: Cmd, k: string, r: Rule)
    requires !cmd.SeeDocker? && k in t
    ensures var u := OnTable(t, cmd);
      var n := Count(t[k], r);
      && u.Keys == t.Keys
      && Count(u[k], r) ==
           if k != cmd.chain || r != cmd.rule then n
           else if cmd.Delete? then (if n > 0 then n - 1 else 0)
           else if cmd.Insert? then n + 1
           else if n == 0 then 1 else n
  {
    ChainCopies(t[k], cmd.rule, r);
  }

  lemma ChainCopies(rules: Chain, q: Rule, r: Rule)
    ensures Count(RemoveFirst(rules, q), r) == if r == q && Count(rules, r) > 0 then Count(rules, r) - 1
      else Count(rules, r)
    ensures Count([q] + rules, r) == Count(rules, r) + if r == q then 1 else 0
    ensures Count(Netfilter.AppendUnique(rules, q), r) == if r == q && Count(rules, r) == 0 then 1 else Count(rules, r)
  {
    RemoveCounts(rules, q);
  }

  lemma TableOnceIff(t: Tables, cmd: Cmd, managed: set<Rule>)
    requires !cmd.SeeDocker? && AtMostOnce(t, managed) && cmd.rule in managed
    ensures AtMostOnce(OnTable(t, cmd), managed) <==> !(cmd.Insert? && cmd.chain in t && cmd.rule in t[cmd.chain])
  {
    var u := OnTable(t, cmd);
    forall k, r | k in t && r in managed
      ensures u.Keys == t.Keys
      ensures Count(u[k], r) <= 1 <==> !(k == cmd.chain && r == cmd.rule && cmd.Insert? && cmd.rule in t[cmd.chain])
    {
      CallCopies(t, cmd, k, r);
      assert Count(t[k], r) <= 1;
    }
  }

  lemma EditOnce(t: Tables, u: Tables, managed: set<Rule>)
    requires AtMostOnce(t, managed) && AddsNoCopy(t, u, managed)
    ensures AtMostOnce(u, managed)
  {
    forall k, r | k in u && r in managed ensures Count(u[k], r) <= 1 {
      assert k in t ==> Count(t[k], r) <= 1;
    }
  }

  lemma PerformedTable(f: Firewall, cmd: Cmd, t: Table)
    requires !cmd.SeeDocker?
    ensures TableOf(Performed(f, cmd), t) == if t == cmd.table then OnTable(TableOf(f, t), cmd) else TableOf(f, t)
  {
  }

  lemma PerformedOnceIff(f: Firewall, cmd: Cmd, managed: set<Rule>)
    requires !cmd.SeeDocker? && forall t: Table :: AtMostOnce(TableOf(f, t), managed)
    ensures (forall t: Table :: AtMostOnce(TableOf(Performed(f, cmd), t), managed)) <==>
      AtMostOnce(OnTable(TableOf(f, cmd.table), cmd), managed)
  {
    PerformedTable(f, cmd, cmd.table);
    forall t: Table | t != cmd.table ensures AtMostOnce(TableOf(Performed(f, cmd), t), managed) {
      PerformedTable(f, cmd, t);
    }
  }

  lemma CallOnceIff(s: State, managed: set<Rule>)
    requires Once(s, managed) && Orderly(s.todo, managed) && s.todo != []
    ensures Once(Step(s, CallEnd(true)), managed) <==> !Blind(s, CallEnd(true))
  {
    var cmd := s.todo[0];
    assert cmd in s.todo;
    if !cmd.SeeDocker? {
      TableOnceIff(TableOf(s.firewall, cmd.table), cmd, managed);
      PerformedOnceIff(s.firewall, cmd, managed);
    }
  }

  /** Any event keeps managed rules at most once, except an insertion that takes effect while its rule is there. */
  lemma StepOnceIff(s: State, e: Event, configs: set<Config>)
    requires Once(s, ManagedRules(configs)) && Orderly(s.todo, ManagedRules(configs)) && Allowed(s.firewall, e, configs)
    ensures Once(Step(s, e), ManagedRules(configs)) <==> !Blind(s, e)
  {
    var managed := ManagedRules(configs);
    if e == CallEnd(true) && s.todo != [] {
      CallOnceIff(s, managed);
    } else if e.Edit? {
      forall t: Table ensures AtMostOnce(TableOf(e.after, t), managed) {
        EditOnce(TableOf(s.firewall, t), TableOf(e.after, t), managed);
      }
    }
  }

  /**
   * Over any interleaving of single calls, edits by others and crashes, for any pools: every managed rule is in every
   * chain at most once throughout, exactly when no insertion ever takes effect while its rule is there.
   */
  lemma {:induction false} OnceIffNeverBlind(s: State, events: seq<Event>, configs: set<Config>)
    requires Once(s, ManagedRules(configs)) && Orderly(s.todo, ManagedRules(configs)) && AllAllowed(s, events, configs)
    ensures OnceThroughout(s, events, ManagedRules(configs)) <==> NeverBlind(s, events)
    decreases |events|
  {
    if |events| > 0 {
      StepOnceIff(s, events[0], configs);
      StepOrderly(s, events[0], configs);
      if !Blind(s, events[0]) { OnceIffNeverBlind(Step(s, events[0]), events[1..], configs); }
      else { NotOnce(Step(s, events[0]), events[1..], ManagedRules(configs)); }
    }
  }

  lemma NotOnce(s: State, events: seq<Event>, managed: set<Rule>)
    requires !Once(s, managed)
    ensures !OnceThroughout(s, events, managed)
  {
  }

  // ----- when an insertion is blind -----

  lemma StepCleared(s: State, e: Event, configs: set<Config>)
    requires Once(s, ManagedRules(configs)) && Orderly(s.todo, ManagedRules(configs)) && Allowed(s.firewall, e, configs)
    requires Cleared(s)
    ensures Cleared(Step(s, e))
  {
    var managed := ManagedRules(configs);
    if e.Begin? {
      ManagedOf(configs, e.config);
      ProgramOrderly(e.config, managed);
    } else if e.CallEnd? && |s.todo| > 1 && s.todo[1].Insert? && !s.todo[0].SeeDocker? && e.effective {
      var cmd := s.todo[1];
      assert AfterDelete(s.todo, 1);
      var t := TableOf(s.firewall, cmd.table);
      assert s.todo[1] in s.todo && ManagedCmd(cmd, managed);
      if cmd.chain in t {
        assert AtMostOnce(t, managed);
        assert Count(t[cmd.chain], cmd.rule) <= 1;
        CallCopies(t, s.todo[0], cmd.chain, cmd.rule);
      }
    } else if e.CallEnd? && s.todo != [] && s.todo[0].SeeDocker? {
      assert s.todo[0] in s.todo;
      ProgramOrderly(s.todo[0].config, managed);
      if |s.todo| > 1 { assert AfterDelete(s.todo, 1); }
    } else if e.Edit? && s.todo != [] && s.todo[0].Insert? {
      assert s.todo[0] in s.todo && ManagedCmd(s.todo[0], managed);
      assert AddsNoCopy(TableOf(s.firewall, s.todo[0].table), TableOf(e.after, s.todo[0].table), managed);
    }
  }

  /** No insertion goes through right after the deletion of its rule failed. */
  predicate NoneAfterFailure(s: State, events: seq<Event>)
    decreases |events|
  {
    |events| == 0
    || (!(events[0] == CallEnd(true) && s.todo != [] && s.todo[0].Insert? && !s.took)
        && NoneAfterFailure(Step(s, events[0]), events[1..]))
  }

  /** An insertion can only be blind when the deletion right before it failed, whatever others did between the two. */
  lemma {:induction false} NeverBlindWithout(s: State, events: seq<Event>, configs: set<Config>)
    requires Once(s, ManagedRules(configs)) && Orderly(s.todo, ManagedRules(configs)) && AllAllowed(s, events, configs)
    requires Cleared(s) && NoneAfterFailure(s, events)
    ensures NeverBlind(s, events)
    decreases |events|
  {
    if |events| > 0 {
      StepOnceIff(s, events[0], configs);
      StepOrderly(s, events[0], configs);
      StepCleared(s, events[0], configs);
      NeverBlindWithout(Step(s, events[0]), events[1..], configs);
    }
  }

  // ----- growth and foreign rules -----

  ghost predicate NoGrowth(t: Tables, managed: set<Rule>) {
    forall k | k in t :: |t[k]| <= |Unmanaged(t[k], managed)| + |managed|
  }

  lemma BoundEach(t: Tables, managed: set<Rule>)
    requires AtMostOnce(t, managed)
    ensures NoGrowth(t, managed)
  {
    forall k | k in t ensures |t[k]| <= |Unmanaged(t[k], managed)| + |managed| {
      forall r | r in managed ensures Count(t[k], r) <= 1 {
      }
      LengthBound(t[k], managed);
    }
  }

  lemma {:induction false} EndsOnce(s: State, events: seq<Event>, managed: set<Rule>)
    requires OnceThroughout(s, events, managed)
    ensures Once(Run(s, events), managed)
    decreases |events|
  {
    if |events| > 0 { EndsOnce(Step(s, events[0]), events[1..], managed); }
  }

  /** So no chain ever outgrows its foreign rules and the managed set together. */
  lemma ChainsNeverGrow(f: Firewall, events: seq<Event>, configs: set<Config>)
    requires FirewallAtMostOnce(f, ManagedRules(configs)) && AllAllowed(State(f, [], false), events, configs)
    requires NoneAfterFailure(State(f, [], false), events)
    ensures var g := Run(State(f, [], false), events).firewall;
      && FirewallAtMostOnce(g, ManagedRules(configs))
      && forall t: Table :: NoGrowth(TableOf(g, t), ManagedRules(configs))
  {
    var s, managed := State(f, [], false), ManagedRules(configs);
    NeverBlindWithout(s, events, configs);
    OnceIffNeverBlind(s, events, configs);
    EndsOnce(s, events, managed);
    var g := Run(s, events).firewall;
    assert AtMostOnce(TableOf(g, NatTable), managed) && AtMostOnce(TableOf(g, FilterTable), managed)
        && AtMostOnce(TableOf(g, MangleTable), managed);
    forall t: Table ensures NoGrowth(TableOf(g, t), managed) { BoundEach(TableOf(g, t), managed); }
  }

  lemma CallKeepsForeign(t: Tables, cmd: Cmd, managed: set<Rule>)
    requires !cmd.SeeDocker? && cmd.rule in managed
    ensures SameForeign(t, OnTable(t, cmd), managed)
  {
    if cmd.chain in t {
      var rules := t[cmd.chain];
      match cmd {
        case Delete(_, _, r) => UnmanagedRemove(rules, r, managed);
        case Insert(_, _, r) => assert ([r] + rules)[1..] == rules;
        case AppendUnique(_, _, r) => UnmanagedAppend(rules, [r], managed);
      }
    }
  }

  /** Between two foreign edits, calls and crashes leave every foreign rule where it is relative to the others. */
  lemma {:induction false} ForeignOrderKept(s: State, events: seq<Event>, configs: set<Config>)
    requires Orderly(s.todo, ManagedRules(configs)) && AllAllowed(s, events, configs) && forall e | e in events ::
      !e.Edit?
    ensures forall t: Table :: SameForeign(TableOf(s.firewall, t), TableOf(Run(s, events).firewall, t),
      ManagedRules(configs))
    decreases |events|
  {
    if |events| > 0 {
      var managed, e := ManagedRules(configs), events[0];
      assert e in events && forall d | d in events[1..] :: d in events;
      var u := Step(s, e);
      forall t: Table ensures SameForeign(TableOf(s.firewall, t), TableOf(u.firewall, t), managed) {
        if e == CallEnd(true) && s.todo != [] && !s.todo[0].SeeDocker? {
          assert s.todo[0] in s.todo;
          CallKeepsForeign(TableOf(s.firewall, s.todo[0].table), s.todo[0], managed);
        }
      }
      StepOrderly(s, e, configs);
      ForeignOrderKept(u, events[1..], configs);
    }
  }
}

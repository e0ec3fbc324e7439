/**
 * Self-heal of the UPF: every node's agent lists the UPF pods, judges them, and then deletes the sick ones by name.
 * Between the judgement and a deletion anything may happen, including the pod being replaced under the same name.
 */
module SelfHeal {
  import opened Calls
  import opened Collections

  datatype Condition = Condition(kind: string, status: string)

  datatype Pod = Pod(uid: nat, created: int, terminating: bool, conditions: seq<Condition>, initRestarts: seq<nat>,
                     networks: string)

  const SECOND: int := 1_000_000_000
  const PATIENCE: int := 45 * SECOND
  const NETS: seq<string> := ["access", "core"]

  predicate Contains(s: string, sub: string) {
    sub <= s || (|s| > 0 && Contains(s[1..], sub))
  }

  /** Multus recorded the interface, with or without a blank after the colon. */
  predicate HasNet(status: string, name: string) {
    Contains(status, "\"interface\":\"" + name + "\"") || Contains(status, "\"interface\": \"" + name + "\"")
  }

  predicate HasNets(p: Pod, names: seq<string>) {
    forall n | n in names :: HasNet(p.networks, n)
  }

  /** The first Ready condition decides. */
  predicate Ready(conditions: seq<Condition>) {
    |conditions| > 0 &&
    if conditions[0].kind == "Ready" then conditions[0].status == "True" else Ready(conditions[1..])
  }

  /** Addition of `int32` values wraps. */
  function Wrap32(v: int): int {
    (v + 0x8000_0000) % 0x1_0000_0000 - 0x8000_0000
  }

  function Restarts(counts: seq<nat>): int {
    if |counts| == 0 then 0 else Wrap32(Restarts(counts[..|counts| - 1]) + counts[|counts| - 1])
  }

  predicate Ailing(p: Pod, now: int) {
    Restarts(p.initRestarts) >= 3 || (now - p.created > PATIENCE && !HasNets(p, NETS))
  }

  predicate Sick(p: Pod, now: int) {
    !p.terminating && !Ready(p.conditions) && Ailing(p, now)
  }

  // ----- what a sick pod is -----

  /** The text is a part of the other, wherever. */
  ghost predicate Occurs(sub: string, s: string) {
    exists before, after :: s == before + sub + after
  }

  lemma {:induction false} ContainsIff(s: string, sub: string)
    ensures Contains(s, sub) <==> Occurs(sub, s)
    decreases |s|
  {
    if sub <= s {
      assert s == "" + sub + s[|sub|..];
    } else if |s| > 0 {
      ContainsIff(s[1..], sub);
      if Occurs(sub, s[1..]) {
        var before, after :| s[1..] == before + sub + after;
        assert s == ([s[0]] + before) + sub + after;
      }
      if Occurs(sub, s) {
        var before, after :| s == before + sub + after;
        assert before != [];
        assert s[1..] == before[1..] + sub + after;
      }
    }
  }

  function Sum(counts: seq<nat>): nat {
    if |counts| == 0 then 0 else Sum(counts[..|counts| - 1]) + counts[|counts| - 1]
  }

  lemma Wraps(v: int)
    ensures -0x8000_0000 <= Wrap32(v) < 0x8000_0000
    ensures exists k: int :: Wrap32(v) == v + k * 0x1_0000_0000
  {
    var q := (v + 0x8000_0000) / 0x1_0000_0000;
    assert Wrap32(v) == v + (-q) * 0x1_0000_0000;
  }

  /** The count of restarts is their sum as far as 32 bits hold it. */
  lemma {:induction false} RestartsWrap(counts: seq<nat>)
    ensures -0x8000_0000 <= Restarts(counts) < 0x8000_0000
    ensures exists k: int :: Restarts(counts) == Sum(counts) + k * 0x1_0000_0000
  {
    if |counts| == 0 {
      assert Restarts(counts) == Sum(counts) + 0 * 0x1_0000_0000;
    } else {
      var n := |counts| - 1;
      RestartsWrap(counts[..n]);
      var k: int :| Restarts(counts[..n]) == Sum(counts[..n]) + k * 0x1_0000_0000;
      Wraps(Restarts(counts[..n]) + counts[n]);
      var j: int :| Wrap32(Restarts(counts[..n]) + counts[n]) ==
        Restarts(counts[..n]) + counts[n] + j * 0x1_0000_0000;
      assert Restarts(counts) == Sum(counts) + (k + j) * 0x1_0000_0000;
    }
  }

  /** The first condition of the kind Ready says True. */
  ghost predicate FirstReadyIsTrue(conditions: seq<Condition>) {
    exists i :: 0 <= i < |conditions| && conditions[i] == Condition("Ready", "True")
                && forall j | 0 <= j < i :: conditions[j].kind != "Ready"
  }

  lemma {:induction false} ReadyIff(conditions: seq<Condition>)
    ensures Ready(conditions) <==> FirstReadyIsTrue(conditions)
    decreases |conditions|
  {
    if |conditions| > 0 && conditions[0].kind != "Ready" {
      ReadyIff(conditions[1..]);
      if FirstReadyIsTrue(conditions[1..]) {
        var i :| 0 <= i < |conditions[1..]| && conditions[1..][i] == Condition("Ready", "True")
          && forall j | 0 <= j < i :: conditions[1..][j].kind != "Ready";
        assert forall j | 0 < j < i + 1 :: conditions[j].kind == conditions[1..][j - 1].kind;
        assert conditions[i + 1] == Condition("Ready", "True");
      }
      if FirstReadyIsTrue(conditions) {
        var i :| 0 <= i < |conditions| && conditions[i] == Condition("Ready", "True")
          && forall j | 0 <= j < i :: conditions[j].kind != "Ready";
        assert conditions[1..][i - 1] == Condition("Ready", "True");
        assert forall j | 0 <= j < i - 1 :: conditions[1..][j].kind == conditions[j + 1].kind;
      }
    } else if |conditions| > 0 && Ready(conditions) {
      assert conditions[0] == Condition("Ready", "True");
    }
  }

  /** Access or core is recorded in neither spelling. */
  ghost predicate LacksNet(status: string) {
    || !(Occurs("\"interface\":\"access\"", status) || Occurs("\"interface\": \"access\"", status))
    || !(Occurs("\"interface\":\"core\"", status) || Occurs("\"interface\": \"core\"", status))
  }

  /**
   * What the heal strikes: a pod that is not going away and whose first Ready condition is not True, if its init
   * containers have restarted three times, or if it is older than 45 s and lacks a record of access or of core in both
   * spellings.
   */
  lemma SickMeans(p: Pod, now: int)
    ensures Sick(p, now) <==>
      && !p.terminating && !FirstReadyIsTrue(p.conditions)
      && (|| Restarts(p.initRestarts) >= 3
          || (now - p.created > 45_000_000_000 && LacksNet(p.networks)))
  {
    ReadyIff(p.conditions);
    NetsMean(p);
  }

  lemma NetsMean(p: Pod)
    ensures HasNets(p, NETS) <==> !LacksNet(p.networks)
  {
    NetMeans(p.networks, "access", "\"interface\":\"access\"", "\"interface\": \"access\"");
    NetMeans(p.networks, "core", "\"interface\":\"core\"", "\"interface\": \"core\"");
    assert NETS[0] == "access" && NETS[1] == "core" && forall n :: n in NETS <==> n == NETS[0] || n == NETS[1];
  }

  lemma NetMeans(status: string, name: string, tight: string, loose: string)
    requires tight == "\"interface\":\"" + name + "\"" && loose == "\"interface\": \"" + name + "\""
    ensures HasNet(status, name) <==> Occurs(tight, status) || Occurs(loose, status)
  {
    ContainsIff(status, tight);
    ContainsIff(status, loose);
  }

  /** `verdicts` holds, for every agent, the names it is still to delete and the pod it judged under each. */
  datatype State = State(pods: map<string, Pod>, verdicts: map<string, map<string, nat>>, now: int, nextUid: nat)

  datatype Event =
    | List(agent: string)
    | DeleteEnd(agent: string, name: string, outcome: Outcome)
    | Recreate(name: string, conditions: seq<Condition>, initRestarts: seq<nat>, networks: string)
    | Report(name: string, conditions: seq<Condition>, initRestarts: seq<nat>, networks: string)
    | OtherDelete(name: string)
    | Gone(name: string)
    | Wait(time: nat)

  function Drop<K, V>(m: map<K, V>, k: K): map<K, V> {
    map j | j in m && j != k :: m[j]
  }

  function Pending(s: State, agent: string): map<string, nat> {
    if agent in s.verdicts then s.verdicts[agent] else map[]
  }

  function SickOnes(s: State): map<string, nat> {
    map n | n in s.pods && Sick(s.pods[n], s.now) :: s.pods[n].uid
  }

  /** The API server marks whatever pod holds the name. */
  function Marked(pods: map<string, Pod>, name: string): map<string, Pod> {
    if name in pods then pods[name := pods[name].(terminating := true)] else pods
  }

  function Step(s: State, e: Event): State {
    match e
    case List(a) => s.(verdicts := s.verdicts[a := SickOnes(s)])
    case DeleteEnd(a, n, o) =>
      if n !in Pending(s, a) then s
      else s.(verdicts := s.verdicts[a := Drop(s.verdicts[a], n)],
              pods := if o.Effective() then Marked(s.pods, n) else s.pods)
    case Recreate(n, conditions, restarts, networks) =>
      if n in s.pods then s
      else s.(pods := s.pods[n := Pod(s.nextUid, s.now, false, conditions, restarts, networks)], nextUid :=
        s.nextUid + 1)
    case Report(n, conditions, restarts, networks) =>
      if n !in s.pods then s
      else s.(pods := s.pods[n := s.pods[n].(conditions := conditions, initRestarts := restarts, networks := networks)])
    case OtherDelete(n) => s.(pods := Marked(s.pods, n))
    case Gone(n) => s.(pods := Drop(s.pods, n))
    case Wait(t) => s.(now := s.now + t)
  }

  function Run(s: State, events: seq<Event>): State
    decreases |events|
  {
    if |events| == 0 then s else Run(Step(s, events[0]), events[1..])
  }

  /** The self-heal's call takes effect on an existing pod. */
  predicate Deletes(s: State, e: Event) {
    e.DeleteEnd? && e.name in Pending(s, e.agent) && e.outcome.Effective() && e.name in s.pods
  }

  function Deletions(s: State, events: seq<Event>): nat
    decreases |events|
  {
    if |events| == 0 then 0 else (if Deletes(s, events[0]) then 1 else 0) + Deletions(Step(s, events[0]), events[1..])
  }

  /** Those made by agents of the given groups. */
  function DeletionsBy(s: State, events: seq<Event>, group: string -> string, groups: set<string>): nat
    decreases |events|
  {
    if |events| == 0 then 0
    else
      (if Deletes(s, events[0]) && group(events[0].agent) in groups then 1 else 0)
      + DeletionsBy(Step(s, events[0]), events[1..], group, groups)
  }

  lemma {:induction false} RunOne(s: State, events: seq<Event>, e: Event)
    ensures Run(s, events + [e]) == Step(Run(s, events), e)
    decreases |events|
  {
    if |events| == 0 {
      assert events + [e] == [e] && [e][1..] == [];
    } else {
      assert (events + [e])[1..] == events[1..] + [e];
      RunOne(Step(s, events[0]), events[1..], e);
    }
  }

  ghost predicate Sound(s: State) {
    && (forall n | n in s.pods :: s.pods[n].uid < s.nextUid)
    && forall n, m | n in s.pods && m in s.pods && s.pods[n].uid == s.pods[m].uid :: n == m
  }

  function Uids(s: State): set<nat> {
    set n | n in s.pods :: s.pods[n].uid
  }

  /**
   * Pods created since then do not crash-loop, and once 45 s old they have both interfaces recorded, in either
   * spelling.
   */
  ghost predicate NewOnesWell(s: State, initial: set<nat>) {
    forall n | n in s.pods && s.pods[n].uid !in initial ::
      && Restarts(s.pods[n].initRestarts) < 3
      && (s.now - s.pods[n].created > 45_000_000_000 ==> !LacksNet(s.pods[n].networks))
  }

  /** So they are not sick. */
  lemma WellIsNotSick(s: State, initial: set<nat>, n: string)
    requires NewOnesWell(s, initial) && n in s.pods && s.pods[n].uid !in initial
    ensures !Sick(s.pods[n], s.now)
  {
    SickMeans(s.pods[n], s.now);
  }

  /** Agents of one group do not hold verdicts on the same pod at one moment. */
  ghost predicate Exclusive(s: State, group: string -> string) {
    forall a, b, n, m | a in s.verdicts && b in s.verdicts && a != b && group(a) == group(b)
      && n in s.verdicts[a] && m in s.verdicts[b] :: s.verdicts[a][n] != s.verdicts[b][m]
  }

  /** In every state of the run new pods are well and no two agents of a group have judged the same pod. */
  ghost predicate Calm(s: State, events: seq<Event>, initial: set<nat>, group: string -> string)
    decreases |events|
  {
    NewOnesWell(s, initial) && Exclusive(s, group) && (|events| > 0 ==>
      Calm(Step(s, events[0]), events[1..], initial, group))
  }

  /** So a listing judges exactly those pods, each under its name. */
  lemma ListJudges(s: State, agent: string, n: string)
    ensures var verdict := Step(s, List(agent)).verdicts[agent];
      && (n in verdict <==>
            && n in s.pods && !s.pods[n].terminating && !FirstReadyIsTrue(s.pods[n].conditions)
            && (|| Restarts(s.pods[n].initRestarts) >= 3
                || (s.now - s.pods[n].created > 45_000_000_000 && LacksNet(s.pods[n].networks))))
      && (n in verdict ==> verdict[n] == s.pods[n].uid)
  {
    if n in s.pods { SickMeans(s.pods[n], s.now); }
  }

  // ----- the bound -----

  ghost predicate Alive(s: State, uid: nat) {
    exists n :: n in s.pods && s.pods[n].uid == uid && !s.pods[n].terminating
  }

  /** No pod of another name is the pod in question. */
  ghost predicate Named(s: State, n: string, uid: nat) {
    uid < s.nextUid && forall m | m in s.pods && s.pods[m].uid == uid :: m == n
  }

  /** An agent's verdict is about a pod of the start, found under that name, not struck before by the agent's group. */
  ghost predicate Fits(s: State, initial: set<nat>, group: string -> string, struck: set<(string, nat)>, a: string,
                       n: string, uid: nat) {
    uid in initial && (group(a), uid) !in struck && Named(s, n, uid)
  }

  ghost predicate VerdictsFit(s: State, initial: set<nat>, group: string -> string, struck: set<(string, nat)>) {
    && (forall a, n | a in s.verdicts && n in s.verdicts[a] :: Fits(s, initial, group, struck, a, n, s.verdicts[a][n]))
    && forall a | a in s.verdicts :: OnePerPod(s.verdicts[a])
  }

  ghost predicate OnePerPod(verdict: map<string, nat>) {
    forall m, n | m in verdict && n in verdict && verdict[m] == verdict[n] :: m == n
  }

  ghost predicate StruckDead(s: State, struck: set<(string, nat)>) {
    forall x | x in struck :: !Alive(s, x.1) && x.1 < s.nextUid
  }

  ghost predicate Tally(s: State, initial: set<nat>, group: string -> string, struck: set<(string, nat)>) {
    Sound(s) && VerdictsFit(s, initial, group, struck) && StruckDead(s, struck)
  }

  lemma StepClock(s: State, e: Event)
    ensures s.nextUid <= Step(s, e).nextUid
  {
  }

  lemma StepSound(s: State, e: Event)
    requires Sound(s)
    ensures Sound(Step(s, e))
  {
  }

  /** A pod met after a step is a new one or was there under its name, terminating if it was. */
  lemma PodOrigin(s: State, e: Event, n: string)
    requires n in Step(s, e).pods
    ensures var p := Step(s, e).pods[n];
      p.uid == s.nextUid || (n in s.pods && s.pods[n].uid == p.uid && (s.pods[n].terminating ==> p.terminating))
  {
  }

  /** No pod comes back to life, and a pod never changes its name. */
  lemma PodsPass(s: State, e: Event, uid: nat)
    requires uid < s.nextUid
    ensures Alive(Step(s, e), uid) ==> Alive(s, uid)
    ensures forall m | m in Step(s, e).pods && Step(s, e).pods[m].uid == uid :: m in s.pods && s.pods[m].uid == uid
  {
    var t := Step(s, e);
    forall m | m in t.pods && t.pods[m].uid == uid
      ensures m in s.pods && s.pods[m].uid == uid && (s.pods[m].terminating ==> t.pods[m].terminating)
    {
      PodOrigin(s, e, m);
    }
  }

  lemma DeadStay(s: State, e: Event, struck: set<(string, nat)>)
    requires StruckDead(s, struck)
    ensures StruckDead(Step(s, e), struck)
  {
    forall x | x in struck ensures !Alive(Step(s, e), x.1) && x.1 < Step(s, e).nextUid {
      PodsPass(s, e, x.1);
      StepClock(s, e);
    }
  }

  lemma NamedStays(s: State, e: Event, n: string, uid: nat)
    requires Named(s, n, uid)
    ensures Named(Step(s, e), n, uid)
  {
    StepClock(s, e);
    PodsPass(s, e, uid);
  }

  /** A verdict that stays keeps fitting. */
  lemma FitsStays(s: State, e: Event, initial: set<nat>, group: string -> string, struck: set<(string, nat)>,
                  a: string, n: string, uid: nat)
    requires Fits(s, initial, group, struck, a, n, uid)
    ensures Fits(Step(s, e), initial, group, struck, a, n, uid)
  {
    NamedStays(s, e, n, uid);
  }

  lemma ListFits(s: State, agent: string, initial: set<nat>, group: string -> string, struck: set<(string, nat)>)
    requires Tally(s, initial, group, struck) && NewOnesWell(s, initial)
    ensures Tally(Step(s, List(agent)), initial, group, struck)
  {
    var t := Step(s, List(agent));
    DeadStay(s, List(agent), struck);
    assert SickOnes(s) == t.verdicts[agent];
    forall n | n in SickOnes(s) ensures Fits(t, initial, group, struck, agent, n, SickOnes(s)[n]) {
      assert Alive(s, s.pods[n].uid);
      if s.pods[n].uid !in initial { WellIsNotSick(s, initial, n); }
    }
    forall a, n | a in t.verdicts && n in t.verdicts[a]
      ensures Fits(t, initial, group, struck, a, n, t.verdicts[a][n]) {
      if a != agent { FitsStays(s, List(agent), initial, group, struck, a, n, s.verdicts[a][n]); }
    }
  }

  /** Events that change no verdict. */
  lemma OthersFit(s: State, e: Event, initial: set<nat>, group: string -> string, struck: set<(string, nat)>)
    requires Tally(s, initial, group, struck) && !e.List? && (e.DeleteEnd? ==> e.name !in Pending(s, e.agent))
    ensures Tally(Step(s, e), initial, group, struck)
  {
    var t := Step(s, e);
    StepSound(s, e);
    DeadStay(s, e, struck);
    assert t.verdicts == s.verdicts;
    forall a, n | a in t.verdicts && n in t.verdicts[a]
      ensures Fits(t, initial, group, struck, a, n, t.verdicts[a][n]) {
      FitsStays(s, e, initial, group, struck, a, n, s.verdicts[a][n]);
    }
  }

  /** After the call took effect the judged pod is dead, whichever pod the name stood for. */
  lemma DeletedIsDead(s: State, e: Event, initial: set<nat>, group: string -> string, struck: set<(string, nat)>)
    requires Tally(s, initial, group, struck) && e.DeleteEnd? && e.name in Pending(s, e.agent) && e.outcome.Effective()
    ensures !Alive(Step(s, e), s.verdicts[e.agent][e.name])
  {
    var uid := s.verdicts[e.agent][e.name];
    assert Fits(s, initial, group, struck, e.agent, e.name, uid);
    PodsPass(s, e, uid);
  }

  ghost function Struck(s: State, e: Event, group: string -> string, struck: set<(string, nat)>): set<(string, nat)> {
    if Deletes(s, e) then struck + {(group(e.agent), Pending(s, e.agent)[e.name])} else struck
  }

  /** The verdicts left after one was acted on are about other pods, or held by other groups. */
  lemma OthersNotStruck(s: State, e: Event, initial: set<nat>, group: string -> string, struck: set<(string, nat)>,
                        b: string, n: string)
    requires Tally(s, initial, group, struck) && Exclusive(s, group) && e.DeleteEnd? && e.name in Pending(s, e.agent)
    requires var t := Step(s, e); b in t.verdicts && n in t.verdicts[b]
    ensures b in s.verdicts && n in s.verdicts[b] && s.verdicts[b][n] == Step(s, e).verdicts[b][n]
    ensures (group(b), s.verdicts[b][n]) !in Struck(s, e, group, struck)
  {
    assert Fits(s, initial, group, struck, b, n, s.verdicts[b][n]);
    assert OnePerPod(s.verdicts[b]);
  }

  lemma DeleteFits(s: State, e: Event, initial: set<nat>, group: string -> string, struck: set<(string, nat)>)
    requires Tally(s, initial, group, struck) && Exclusive(s, group) && e.DeleteEnd? && e.name in Pending(s, e.agent)
    ensures Tally(Step(s, e), initial, group, Struck(s, e, group, struck))
  {
    var t := Step(s, e);
    StepSound(s, e);
    DeadStay(s, e, struck);
    var more := Struck(s, e, group, struck);
    assert Fits(s, initial, group, struck, e.agent, e.name, s.verdicts[e.agent][e.name]);
    if Deletes(s, e) { DeletedIsDead(s, e, initial, group, struck); }
    forall b, n | b in t.verdicts && n in t.verdicts[b] ensures Fits(t, initial, group, more, b, n, t.verdicts[b][n]) {
      OthersNotStruck(s, e, initial, group, struck, b, n);
      FitsStays(s, e, initial, group, struck, b, n, s.verdicts[b][n]);
    }
    forall b | b in t.verdicts ensures OnePerPod(t.verdicts[b]) {
      assert OnePerPod(s.verdicts[b]);
    }
  }

  lemma TallyStep(s: State, e: Event, initial: set<nat>, group: string -> string, struck: set<(string, nat)>)
    requires Tally(s, initial, group, struck) && Exclusive(s, group) && NewOnesWell(s, initial)
    ensures Tally(Step(s, e), initial, group, Struck(s, e, group, struck))
  {
    if e.List? {
      ListFits(s, e.agent, initial, group, struck);
    } else if e.DeleteEnd? && e.name in Pending(s, e.agent) {
      DeleteFits(s, e, initial, group, struck);
    } else {
      OthersFit(s, e, initial, group, struck);
    }
  }

  function Product(groups: set<string>, uids: set<nat>): set<(string, nat)> {
    set g, u | g in groups && u in uids :: (g, u)
  }

  lemma {:induction false} ProductSize(groups: set<string>, uids: set<nat>)
    ensures |Product(groups, uids)| == |groups| * |uids|
  {
    if groups != {} {
      var g := Pick(groups);
      ProductSize(groups - {g}, uids);
      Column(g, uids);
      OneMoreColumn(groups, g, uids);
      assert |groups| * |uids| == |groups - {g}| * |uids| + |uids|;
    } else {
      assert Product(groups, uids) == {};
    }
  }

  lemma OneMoreColumn(groups: set<string>, g: string, uids: set<nat>)
    requires g in groups
    ensures |Product(groups, uids)| == |Product(groups - {g}, uids)| + |Product({g}, uids)|
  {
    assert Product(groups, uids) == Product(groups - {g}, uids) + Product({g}, uids);
    assert Product(groups - {g}, uids) !! Product({g}, uids);
  }

  lemma {:induction false} Column(g: string, uids: set<nat>)
    ensures |Product({g}, uids)| == |uids|
  {
    if uids != {} {
      var u := Pick(uids);
      Column(g, uids - {u});
      assert Product({g}, uids) == Product({g}, uids - {u}) + {(g, u)};
    } else {
      assert Product({g}, uids) == {};
    }
  }

  /** Every effective deletion by an agent of the given groups strikes a new pair of a group and a pod of the start. */
  lemma {:induction false} StrikesAreNew(
      s: State, events: seq<Event>, initial: set<nat>, group: string -> string, groups: set<string>,
      struck: set<(string, nat)>, counted: set<(string, nat)>)
    requires Tally(s, initial, group, struck) && Calm(s, events, initial, group)
    requires counted <= struck && counted <= Product(groups, initial)
    ensures |counted| + DeletionsBy(s, events, group, groups) <= |groups| * |initial|
    decreases |events|
  {
    if |events| == 0 {
      SubsetNoLarger(counted, Product(groups, initial));
      ProductSize(groups, initial);
    } else {
      var e := events[0];
      var more := Struck(s, e, group, struck);
      TallyStep(s, e, initial, group, struck);
      var counts := counted;
      if Deletes(s, e) && group(e.agent) in groups {
        assert Fits(s, initial, group, struck, e.agent, e.name, s.verdicts[e.agent][e.name]);
        counts := counted + {(group(e.agent), s.verdicts[e.agent][e.name])};
      }
      StrikesAreNew(Step(s, e), events[1..], initial, group, groups, more, counts);
    }
  }

  /**
   * From a moment on at which no agent holds a verdict, let every new pod get its interfaces in time and not
   * crash-loop, and let agents of one group not hold verdicts on the same pod at once. Then each group of agents
   * deletes at most as often as pods existed at that moment.
   */
  lemma DeletionsBounded(s: State, events: seq<Event>, group: string -> string, groups: set<string>)
    requires Sound(s) && s.verdicts == map[] && Calm(s, events, Uids(s), group)
    ensures DeletionsBy(s, events, group, groups) <= |groups| * |Uids(s)|
  {
    StrikesAreNew(s, events, Uids(s), group, groups, {}, {});
  }

  function OneGroup(agent: string): string { "" }

  lemma {:induction false} AllInOneGroup(s: State, events: seq<Event>)
    ensures DeletionsBy(s, events, OneGroup, {""}) == Deletions(s, events)
    decreases |events|
  {
    if |events| > 0 { AllInOneGroup(Step(s, events[0]), events[1..]); }
  }

  lemma ForOne(s: State, events: seq<Event>, group: string -> string, groups: set<string>)
    requires Sound(s) && s.verdicts == map[] && Calm(s, events, Uids(s), group) && |groups| == 1
    ensures DeletionsBy(s, events, group, groups) <= |s.pods|
  {
    DeletionsBounded(s, events, group, groups);
    assert |groups| * |Uids(s)| == |Uids(s)|;
    UidsCount(s);
  }

  /**
   * However passes overlap, as long as no two agents hold a verdict on the same pod at once all agents together delete
   * at most as often as there were pods.
   */
  lemma DeletionsBoundedInTurn(s: State, events: seq<Event>)
    requires Sound(s) && s.verdicts == map[] && Calm(s, events, Uids(s), OneGroup)
    ensures Deletions(s, events) <= |s.pods|
  {
    ForOne(s, events, OneGroup, {""});
    AllInOneGroup(s, events);
  }

  function Itself(agent: string): string { agent }

  /** In every state of the run new pods are well; agents may do what they like. */
  ghost predicate WellThroughout(s: State, events: seq<Event>, initial: set<nat>)
    decreases |events|
  {
    NewOnesWell(s, initial) && (|events| > 0 ==> WellThroughout(Step(s, events[0]), events[1..], initial))
  }

  lemma {:induction false} CalmOnItsOwn(s: State, events: seq<Event>, initial: set<nat>)
    requires WellThroughout(s, events, initial)
    ensures Calm(s, events, initial, Itself)
    decreases |events|
  {
    if |events| > 0 { CalmOnItsOwn(Step(s, events[0]), events[1..], initial); }
  }

  /** However the passes of the agents overlap, each of them deletes at most as often as there were pods. */
  lemma DeletionsBoundedOverlapping(s: State, events: seq<Event>, agent: string)
    requires Sound(s) && s.verdicts == map[] && WellThroughout(s, events, Uids(s))
    ensures DeletionsBy(s, events, Itself, {agent}) <= |s.pods|
  {
    CalmOnItsOwn(s, events, Uids(s));
    ForOne(s, events, Itself, {agent});
  }

  lemma UidsCount(s: State)
    requires Sound(s)
    ensures |Uids(s)| == |s.pods|
  {
    var names := s.pods.Keys;
    var uidOf := map n | n in names :: s.pods[n].uid;
    ImageNoLarger(names, Uids(s), uidOf);
    InjectionNoLarger(names, Uids(s), uidOf);
  }

  // ----- what costs a second deletion -----

  /** The deletions that took effect on account of a verdict on pod `uid`. */
  function StrikesFor(s: State, events: seq<Event>, uid: nat): nat
    decreases |events|
  {
    if |events| == 0 then 0
    else
      (if Deletes(s, events[0]) && Pending(s, events[0].agent)[events[0].name] == uid then 1 else 0)
      + StrikesFor(Step(s, events[0]), events[1..], uid)
  }

  ghost predicate Holds(s: State, agent: string, name: string, uid: nat) {
    name in Pending(s, agent) && Pending(s, agent)[name] == uid
  }

  /** Two agents hold a verdict on the pod. */
  ghost predicate Shared(s: State, uid: nat) {
    exists a, b, n, m :: a != b && Holds(s, a, n, uid) && Holds(s, b, m, uid)
  }

  ghost predicate EverShared(s: State, events: seq<Event>, uid: nat)
    decreases |events|
  {
    Shared(s, uid) || (|events| > 0 && EverShared(Step(s, events[0]), events[1..], uid))
  }

  /** Each agent judged a pod under one name, the name it has had if it is there. */
  ghost predicate Judicious(s: State) {
    && Sound(s) && (forall a | a in s.verdicts :: OnePerPod(s.verdicts[a]))
    && forall a, n | a in s.verdicts && n in s.verdicts[a] :: Named(s, n, s.verdicts[a][n])
  }

  lemma JudiciousList(s: State, agent: string)
    requires Judicious(s)
    ensures Judicious(Step(s, List(agent)))
  {
    var t := Step(s, List(agent));
    assert t.verdicts[agent] == SickOnes(s);
    forall a, n | a in t.verdicts && n in t.verdicts[a] ensures Named(t, n, t.verdicts[a][n]) {
      if a != agent { assert Named(s, n, s.verdicts[a][n]); }
    }
  }

  /** Other events leave each agent at most the verdicts it had. */
  lemma VerdictsShrink(s: State, e: Event, a: string, n: string)
    requires !e.List? && a in Step(s, e).verdicts && n in Step(s, e).verdicts[a]
    ensures a in s.verdicts && n in s.verdicts[a] && Step(s, e).verdicts[a][n] == s.verdicts[a][n]
  {
  }

  lemma JudiciousStep(s: State, e: Event)
    requires Judicious(s)
    ensures Judicious(Step(s, e))
  {
    if e.List? {
      JudiciousList(s, e.agent);
    } else {
      var t := Step(s, e);
      StepSound(s, e);
      forall a, n | a in t.verdicts && n in t.verdicts[a] ensures Named(t, n, t.verdicts[a][n]) {
        VerdictsShrink(s, e, a, n);
        NamedStays(s, e, n, s.verdicts[a][n]);
      }
      forall a | a in t.verdicts ensures OnePerPod(t.verdicts[a]) {
        forall n | n in t.verdicts[a] ensures n in s.verdicts[a] && t.verdicts[a][n] == s.verdicts[a][n] {
          VerdictsShrink(s, e, a, n);
        }
        if t.verdicts[a] != map[] { assert OnePerPod(s.verdicts[a]); }
      }
    }
  }

  /** The pod is dead and nobody is about to delete on its account. */
  ghost predicate Closed(s: State, uid: nat) {
    !Alive(s, uid) && uid < s.nextUid && forall a, n :: !Holds(s, a, n, uid)
  }

  /** Only pods that are alive come under a new verdict. */
  lemma HeldBefore(s: State, e: Event, a: string, n: string, uid: nat)
    requires Holds(Step(s, e), a, n, uid)
    ensures Holds(s, a, n, uid) || Alive(s, uid)
  {
    if e.List? && a == e.agent { assert n in s.pods && s.pods[n].uid == uid && !s.pods[n].terminating; }
  }

  lemma ClosedStep(s: State, e: Event, uid: nat)
    requires Closed(s, uid)
    ensures Closed(Step(s, e), uid)
  {
    StepClock(s, e);
    PodsPass(s, e, uid);
    forall a, n ensures !Holds(Step(s, e), a, n, uid) {
      if Holds(Step(s, e), a, n, uid) { HeldBefore(s, e, a, n, uid); }
    }
  }

  lemma {:induction false} ClosedForGood(s: State, events: seq<Event>, uid: nat)
    requires Closed(s, uid)
    ensures StrikesFor(s, events, uid) == 0
    decreases |events|
  {
    if |events| > 0 {
      var e := events[0];
      if Deletes(s, e) { assert !Holds(s, e.agent, e.name, uid); }
      ClosedStep(s, e, uid);
      ClosedForGood(Step(s, e), events[1..], uid);
    }
  }

  /** The only verdict on the pod was acted on. */
  lemma StrikeCloses(s: State, e: Event, uid: nat)
    requires Judicious(s) && Deletes(s, e) && Holds(s, e.agent, e.name, uid) && !Shared(s, uid)
    ensures Closed(Step(s, e), uid)
  {
    var t := Step(s, e);
    assert Named(s, e.name, uid);
    PodsPass(s, e, uid);
    StepClock(s, e);
    assert OnePerPod(s.verdicts[e.agent]);
    forall a, n ensures !Holds(t, a, n, uid) {
      if Holds(t, a, n, uid) {
        VerdictsShrink(s, e, a, n);
        assert Holds(s, a, n, uid);
      }
    }
  }

  /** Over every run: a pod costs two deletions only if two agents hold a verdict on it at one moment. */
  lemma {:induction false} TwiceOnlyIfShared(s: State, events: seq<Event>, uid: nat)
    requires Judicious(s)
    ensures StrikesFor(s, events, uid) >= 2 ==> EverShared(s, events, uid)
    decreases |events|
  {
    if |events| > 0 && !Shared(s, uid) {
      var e := events[0];
      JudiciousStep(s, e);
      TwiceOnlyIfShared(Step(s, e), events[1..], uid);
      if Deletes(s, e) && Holds(s, e.agent, e.name, uid) {
        StrikeCloses(s, e, uid);
        ClosedForGood(Step(s, e), events[1..], uid);
      }
    }
  }

  function ReadyConditions(): seq<Condition> { [Condition("Ready", "True")] }
  function BothNets(): string { "{\"interface\":\"access\"}{\"interface\":\"core\"}" }

  /** A Ready pod with both interfaces comes up under the name. */
  function Fresh(name: string): Event { Recreate(name, ReadyConditions(), [], BothNets()) }

  lemma RunFirst(s: State, e: Event, rest: seq<Event>)
    ensures Run(s, [e] + rest) == Run(Step(s, e), rest)
    ensures Deletions(s, [e] + rest) == (if Deletes(s, e) then 1 else 0) + Deletions(Step(s, e), rest)
    ensures forall u :: (
      StrikesFor(s, [e] + rest, u) ==
      (if Deletes(s, e) && Pending(s, e.agent)[e.name] == u then 1 else 0) + StrikesFor(Step(s, e), rest, u))
  {
    assert ([e] + rest)[1..] == rest;
  }

  /** Both agents act, the second on a pod that came up Ready in between. */
  function BothStrike(a: string, n: string, b: string, m: string): seq<Event> {
    [Fresh(n)] + ([DeleteEnd(a, n, Done)] + ([Gone(m)] + ([Fresh(m)] + [DeleteEnd(b, m, Done)])))
  }

  /** When two agents hold a verdict on a pod, the run can go on so that it costs two deletions, one of a Ready pod. */
  lemma SharedCostsTwo(s: State, uid: nat, a: string, n: string, b: string, m: string)
    requires a != b && Holds(s, a, n, uid) && Holds(s, b, m, uid)
    ensures StrikesFor(s, BothStrike(a, n, b, m), uid) == 2
    ensures var t := Run(s, BothStrike(a, n, b, m)[..4]);
      Deletes(t, DeleteEnd(b, m, Done)) && Ready(t.pods[m].conditions)
  {
    var last := [DeleteEnd(b, m, Done)];
    var s1 := Step(s, Fresh(n));
    var s2 := Step(s1, DeleteEnd(a, n, Done));
    var s3 := Step(s2, Gone(m));
    var s4 := Step(s3, Fresh(m));
    assert Holds(s1, a, n, uid) && Holds(s2, b, m, uid) && Holds(s4, b, m, uid);
    assert m !in s3.pods && Ready(s4.pods[m].conditions);
    RunFirst(s, Fresh(n), [DeleteEnd(a, n, Done)] + ([Gone(m)] + ([Fresh(m)] + last)));
    RunFirst(s1, DeleteEnd(a, n, Done), [Gone(m)] + ([Fresh(m)] + last));
    RunFirst(s2, Gone(m), [Fresh(m)] + last);
    RunFirst(s3, Fresh(m), last);
    assert last == last + [];
    RunFirst(s4, DeleteEnd(b, m, Done), []);
    FourEvents(s, a, n, b, m);
  }

  lemma FourEvents(s: State, a: string, n: string, b: string, m: string)
    ensures Run(s, BothStrike(a, n, b, m)[..4]) ==
      Step(Step(Step(Step(s, Fresh(n)), DeleteEnd(a, n, Done)), Gone(m)), Fresh(m))
  {
    var s1 := Step(s, Fresh(n));
    var s2 := Step(s1, DeleteEnd(a, n, Done));
    var four := [Fresh(n)] + ([DeleteEnd(a, n, Done)] + ([Gone(m)] + ([Fresh(m)] + [])));
    assert BothStrike(a, n, b, m)[..4] == four;
    RunOnce(s, Fresh(n), [DeleteEnd(a, n, Done)] + ([Gone(m)] + ([Fresh(m)] + [])));
    RunOnce(s1, DeleteEnd(a, n, Done), [Gone(m)] + ([Fresh(m)] + []));
    RunOnce(s2, Gone(m), [Fresh(m)] + []);
    RunOnce(Step(s2, Gone(m)), Fresh(m), []);
  }

  lemma RunOnce(s: State, e: Event, rest: seq<Event>)
    ensures Run(s, [e] + rest) == Run(Step(s, e), rest)
  {
    assert ([e] + rest)[1..] == rest;
  }

  lemma {:induction false} StrikesOnTheWay(s: State, first: seq<Event>, rest: seq<Event>, uid: nat)
    ensures StrikesFor(s, first + rest, uid) >= StrikesFor(Run(s, first), rest, uid)
    decreases |first|
  {
    if |first| == 0 {
      assert first + rest == rest;
    } else {
      assert (first + rest)[1..] == first[1..] + rest;
      StrikesOnTheWay(Step(s, first[0]), first[1..], rest, uid);
    }
  }

  lemma {:induction false} WhenShared(s: State, events: seq<Event>, uid: nat) returns (first: seq<Event>)
    requires EverShared(s, events, uid)
    ensures Shared(Run(s, first), uid)
    decreases |events|
  {
    first := [];
    if !Shared(s, uid) {
      var later := WhenShared(Step(s, events[0]), events[1..], uid);
      first := [events[0]] + later;
      RunFirst(s, events[0], later);
    }
  }

  /** A pod can come to cost two deletions exactly if two agents can come to hold a verdict on it at one moment. */
  lemma CostsTwoIff(s: State, uid: nat)
    requires Judicious(s)
    ensures (exists events :: StrikesFor(s, events, uid) >= 2) <==> exists events :: Shared(Run(s, events), uid)
  {
    if events :| StrikesFor(s, events, uid) >= 2 {
      TwiceOnlyIfShared(s, events, uid);
      var first := WhenShared(s, events, uid);
    }
    if first :| Shared(Run(s, first), uid) {
      var a, b, n, m :| a != b && Holds(Run(s, first), a, n, uid) && Holds(Run(s, first), b, m, uid);
      SharedCostsTwo(Run(s, first), uid, a, n, b, m);
      StrikesOnTheWay(s, first, BothStrike(a, n, b, m), uid);
    }
  }

  /** Two agents that list one after the other share every pod that is sick. */
  lemma BothJudge(s: State, n: string, a: string, b: string)
    requires a != b && n in s.pods && Sick(s.pods[n], s.now)
    ensures var t := Step(Step(s, List(a)), List(b)); Holds(t, a, n, s.pods[n].uid) && Holds(t, b, n, s.pods[n].uid)
  {
    assert n in SickOnes(s) && n in SickOnes(Step(s, List(a)));
  }

  /** So whatever pod is sick, passes of two agents can overlap in such a way that the second deletes a Ready pod. */
  lemma OverlapStrikesReady(s: State, n: string, a: string, b: string)
    requires a != b && n in s.pods && Sick(s.pods[n], s.now)
    ensures exists events ::
      && StrikesFor(s, events + [DeleteEnd(b, n, Done)], s.pods[n].uid) >= 2
      && Deletes(Run(s, events), DeleteEnd(b, n, Done)) && Ready(Run(s, events).pods[n].conditions)
  {
    var uid, lists, both := s.pods[n].uid, [List(a)] + ([List(b)] + []), BothStrike(a, n, b, n);
    BothJudge(s, n, a, b);
    RunFirst(s, List(a), [List(b)] + []);
    RunFirst(Step(s, List(a)), List(b), []);
    var t := Run(s, lists);
    SharedCostsTwo(t, uid, a, n, b, n);
    StrikesOnTheWay(s, lists, both, uid);
    RunParts(s, lists, both[..4]);
    var events := lists + both[..4];
    assert events + [DeleteEnd(b, n, Done)] == lists + both;
  }

  lemma {:induction false} RunParts(s: State, first: seq<Event>, rest: seq<Event>)
    ensures Run(s, first + rest) == Run(Run(s, first), rest)
    decreases |first|
  {
    if |first| == 0 {
      assert first + rest == rest;
    } else {
      assert (first + rest)[1..] == first[1..] + rest;
      RunParts(Step(s, first[0]), first[1..], rest);
    }
  }
}

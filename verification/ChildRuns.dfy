/**
 * Reconciles of sites call by call: a child is read, and then created or replaced at the revision that was read.
 * Between any two calls others may change, hold, release or remove children, other sites may write theirs, and the
 * process may die.
 */
module ChildRuns {
  import opened Calls
  import opened Text
  import opened Sites
  import opened Children

  datatype Stored = Stored(owner: nat, content: Content, rev: nat, finalizers: set<string>, deleting: bool)

  /** Plain calls write no child. `read` is the revision that was read, None when there was no such object. */
  datatype Call = Plain | Look(child: Child) | Put(child: Child, read: Option<nat>)

  /** A reconcile under way, with what it read of its site. */
  datatype Flight = Flight(uid: nat, intent: Intent, todo: seq<Call>)

  /** `writes` counts the creates and updates of the operator that took effect. */
  datatype State = State(objects: map<ChildKey, Stored>, writes: map<ChildKey, nat>, flights: map<Key, Flight>,
                         clock: nat)

  datatype Event =
    | Begin(site: Key, uid: nat, intent: Intent)
    | CallEnd(site: Key, outcome: Outcome)
    | Crash
    | Drift(key: ChildKey, content: Content)
    | Touch(key: ChildKey)
    | Hold(key: ChildKey, finalizer: string)
    | Release(key: ChildKey, finalizer: string)
    | Removal(key: ChildKey)

  const EMPTY := State(map[], map[], map[], 0)

  function CallOf(step: Task): Call {
    if step.Emit? then Look(step.child) else Plain
  }

  function CallsOf(steps: seq<Task>): seq<Call> {
    if |steps| == 0 then [] else [CallOf(steps[0])] + CallsOf(steps[1..])
  }

  /** The last call reports the status. */
  function Program(site: Key, i: Intent, c: Config): seq<Call> {
    CallsOf(Steps(site, i, c)) + [Plain]
  }

  function Count(writes: map<ChildKey, nat>, k: ChildKey): nat {
    if k in writes then writes[k] else 0
  }

  /** An object that changes gets a new revision, and goes once it is being deleted and nothing holds it. */
  function Changed(s: State, k: ChildKey, o: Stored): State {
    if k in s.objects && s.objects[k] == o then s
    else if o.deleting && o.finalizers == {} then s.(objects := map j | j in s.objects && j != k :: s.objects[j])
    else s.(objects := s.objects[k := o.(rev := s.clock)], clock := s.clock + 1)
  }

  /** The operator writes all of the object, and knows of no finalizers. */
  function Written(s: State, owner: nat, x: Child): State {
    var t :=
      if x.key in s.objects
      then Changed(s, x.key, s.objects[x.key].(owner := owner, content := x.content, finalizers := {}))
      else Changed(s, x.key, Stored(owner, x.content, s.clock, {}, false));
    t.(writes := s.writes[x.key := Count(s.writes, x.key) + 1])
  }

  /** Creating needs the child to be absent, replacing needs it to be as it was read. */
  predicate Fits(s: State, k: ChildKey, read: Option<nat>) {
    match read
    case None => k !in s.objects
    case Some(rev) => k in s.objects && s.objects[k].rev == rev
  }

  function Continue(s: State, site: Key, f: Flight, todo: seq<Call>): State {
    if todo == [] then Abort(s, site) else s.(flights := s.flights[site := f.(todo := todo)])
  }

  function Abort(s: State, site: Key): State {
    s.(flights := map j | j in s.flights && j != site :: s.flights[j])
  }

  predicate AsWanted(s: State, x: Child) {
    x.key in s.objects && x.key.kind.Compared() && s.objects[x.key].content == x.content
  }

  function Revision(s: State, k: ChildKey): Option<nat> {
    if k in s.objects then Some(s.objects[k].rev) else None
  }

  /** One call of a reconcile ends. The reconcile stops at its first failing call. */
  function Performed(s: State, site: Key, f: Flight, call: Call, rest: seq<Call>, o: Outcome): State {
    match call
    case Plain => if o.Done? then Continue(s, site, f, rest) else Abort(s, site)
    case Look(x) =>
      if !o.Done? then Abort(s, site)
      else Continue(s, site, f, if AsWanted(s, x) then rest else [Put(x, Revision(s, x.key))] + rest)
    case Put(x, read) =>
      if !Fits(s, x.key, read) then Abort(s, site)
      else
        var t := if o.Effective() then Written(s, f.uid, x) else s;
        if o.Done? then Continue(t, site, f, rest) else Abort(t, site)
  }

  function Step(s: State, e: Event, c: Config): State {
    match e
    case Begin(site, uid, i) =>
      if site in s.flights then s else s.(flights := s.flights[site := Flight(uid, i, Program(site, i, c))])
    case CallEnd(site, o) =>
      if site !in s.flights then s
      else if s.flights[site].todo == [] then Abort(s, site)
      else Performed(s, site, s.flights[site], s.flights[site].todo[0], s.flights[site].todo[1..], o)
    case Crash => s.(flights := map[])
    case Drift(k, content) => if k in s.objects then Changed(s, k, s.objects[k].(content := content)) else s
    case Touch(k) =>
      if k in s.objects then s.(objects := s.objects[k := s.objects[k].(rev := s.clock)], clock := s.clock + 1) else s
    case Hold(k, f) =>
      if k in s.objects && !s.objects[k].deleting
      then Changed(s, k, s.objects[k].(finalizers := s.objects[k].finalizers + {f})) else s
    case Release(k, f) =>
      if k in s.objects then Changed(s, k, s.objects[k].(finalizers := s.objects[k].finalizers - {f})) else s
    case Removal(k) => if k in s.objects then Changed(s, k, s.objects[k].(deleting := true)) else s
  }

  function Run(s: State, events: seq<Event>, c: Config): State
    decreases |events|
  {
    if |events| == 0 then s else Run(Step(s, events[0], c), events[1..], c)
  }

  lemma {:induction false} RunAppend(s: State, first: seq<Event>, second: seq<Event>, c: Config)
    ensures Run(s, first + second, c) == Run(Run(s, first, c), second, c)
    decreases |first|
  {
    if |first| == 0 {
      assert first + second == second;
    } else {
      assert (first + second)[1..] == first[1..] + second;
      RunAppend(Step(s, first[0], c), first[1..], second, c);
    }
  }

  // ----- what flights are about -----

  /** The call concerns no child, or one of those. */
  predicate About(call: Call, site: Key, i: Intent, c: Config) {
    call.Plain? || Emits(site, i, c, call.child)
  }

  predicate AllAbout(todo: seq<Call>, site: Key, i: Intent, c: Config) {
    forall call | call in todo :: About(call, site, i, c)
  }

  /** A compared child that is about to be replaced is not as wanted if it is still as it was read. */
  predicate Warranted(s: State, call: Call) {
    call.Put? && call.read.Some? ==>
      && call.read.value < s.clock
      && (call.child.key.kind.Compared() && Fits(s, call.child.key, call.read) ==>
            s.objects[call.child.key].content != call.child.content)
  }

  ghost predicate FlightFits(s: State, site: Key, f: Flight, c: Config) {
    AllAbout(f.todo, site, f.intent, c) && forall call | call in f.todo :: Warranted(s, call)
  }

  /** What is being deleted is there because something holds it. */
  predicate Held(o: Stored) {
    o.deleting ==> o.finalizers != {}
  }

  ghost predicate Invariant(s: State, c: Config) {
    && (forall k | k in s.objects :: s.objects[k].rev < s.clock && Held(s.objects[k]))
    && (forall site | site in s.flights :: FlightFits(s, site, s.flights[site], c))
  }

  lemma {:induction false} CallsEmit(steps: seq<Task>, call: Call)
    ensures call in CallsOf(steps) <==>
      (call.Plain? && Other in steps) || (call.Look? && Emit(call.child) in steps)
  {
    if |steps| > 0 {
      CallsEmit(steps[1..], call);
      assert forall x :: x in steps <==> x == steps[0] || x in steps[1..];
      assert call in CallsOf(steps) <==> call == CallOf(steps[0]) || call in CallsOf(steps[1..]);
    }
  }

  lemma ProgramEmits(site: Key, i: Intent, c: Config)
    ensures forall call | call in Program(site, i, c) :: !call.Put? && About(call, site, i, c)
  {
    forall call | call in Program(site, i, c) ensures !call.Put? && About(call, site, i, c) {
      CallsEmit(Steps(site, i, c), call);
      if call.Look? { StepsEmit(site, i, c, call.child); }
    }
  }

  /** Objects get new revisions only. */
  ghost predicate Later(s: State, t: State) {
    && s.clock <= t.clock
    && forall k | k in t.objects ::
         || (k in s.objects && t.objects[k] == s.objects[k])
         || (s.clock <= t.objects[k].rev < t.clock && Held(t.objects[k]))
  }

  lemma ChangedLater(s: State, k: ChildKey, o: Stored)
    ensures Later(s, Changed(s, k, o))
  {
  }

  lemma WrittenLater(s: State, owner: nat, x: Child)
    ensures Later(s, Written(s, owner, x)) && Written(s, owner, x).flights == s.flights
  {
  }

  lemma StaysWarranted(s: State, t: State, call: Call)
    requires Later(s, t) && Warranted(s, call)
    ensures Warranted(t, call)
  {
  }

  lemma LaterKeeps(s: State, t: State, c: Config)
    requires Invariant(s, c) && Later(s, t)
    requires forall site | site in t.flights :: (
      (site in s.flights && t.flights[site] == s.flights[site]) || FlightFits(t, site, t.flights[site], c))
    ensures Invariant(t, c)
  {
    forall site | site in t.flights ensures FlightFits(t, site, t.flights[site], c) {
      if site in s.flights && t.flights[site] == s.flights[site] {
        assert FlightFits(s, site, s.flights[site], c);
        forall call | call in t.flights[site].todo ensures Warranted(t, call) { StaysWarranted(s, t, call); }
      }
    }
  }

  lemma ContinueKeeps(s: State, t: State, site: Key, f: Flight, todo: seq<Call>, c: Config)
    requires Invariant(s, c) && Later(s, t) && t.flights == s.flights
    requires AllAbout(todo, site, f.intent, c) && forall call | call in todo :: Warranted(t, call)
    ensures Invariant(Continue(t, site, f, todo), c) && Invariant(Abort(t, site), c)
  {
    LaterKeeps(s, Continue(t, site, f, todo), c);
    LaterKeeps(s, Abort(t, site), c);
  }

  lemma CallKeeps(s: State, site: Key, f: Flight, call: Call, rest: seq<Call>, o: Outcome, c: Config)
    requires Invariant(s, c) && site in s.flights && s.flights[site] == f && f.todo == [call] + rest
    ensures Invariant(Performed(s, site, f, call, rest, o), c)
  {
    assert FlightFits(s, site, f, c) && call in f.todo && forall d | d in rest :: d in f.todo;
    ContinueKeeps(s, s, site, f, rest, c);
    match call
    case Plain =>
    case Look(x) =>
      var put := Put(x, Revision(s, x.key));
      if !AsWanted(s, x) { ContinueKeeps(s, s, site, f, [put] + rest, c); }
    case Put(x, read) =>
      var t := Written(s, f.uid, x);
      WrittenLater(s, f.uid, x);
      forall d | d in rest ensures Warranted(t, d) { StaysWarranted(s, t, d); }
      ContinueKeeps(s, t, site, f, rest, c);
  }

  lemma ForeignLater(s: State, e: Event, c: Config)
    requires !e.Begin? && !e.CallEnd? && forall k | k in s.objects :: Held(s.objects[k])
    ensures Later(s, Step(s, e, c))
    ensures Step(s, e, c).flights == if e.Crash? then map[] else s.flights
  {
    match e
    case Drift(k, content) => if k in s.objects { ChangedLater(s, k, s.objects[k].(content := content)); }
    case Hold(k, f) =>
      if k in s.objects { ChangedLater(s, k, s.objects[k].(finalizers := s.objects[k].finalizers + {f})); }
    case Release(k, f) =>
      if k in s.objects { ChangedLater(s, k, s.objects[k].(finalizers := s.objects[k].finalizers - {f})); }
    case Removal(k) => if k in s.objects { ChangedLater(s, k, s.objects[k].(deleting := true)); }
    case _ =>
  }

  lemma OthersKeep(s: State, e: Event, c: Config)
    requires Invariant(s, c) && !e.Begin? && !e.CallEnd?
    ensures Invariant(Step(s, e, c), c)
  {
    ForeignLater(s, e, c);
    LaterKeeps(s, Step(s, e, c), c);
  }

  lemma StepKeeps(s: State, e: Event, c: Config)
    requires Invariant(s, c)
    ensures Invariant(Step(s, e, c), c)
  {
    match e {
      case Begin(site, uid, i) =>
        ProgramEmits(site, i, c);
        LaterKeeps(s, Step(s, e, c), c);
      case CallEnd(site, o) =>
        if site in s.flights {
          var f := s.flights[site];
          if f.todo == [] {
            LaterKeeps(s, Step(s, e, c), c);
          } else {
            assert f.todo == [f.todo[0]] + f.todo[1..];
            CallKeeps(s, site, f, f.todo[0], f.todo[1..], o, c);
          }
        }
      case _ => OthersKeep(s, e, c);
    }
  }

  // ----- whose children change -----

  /** The object and the count of its writes are as before. */
  ghost predicate SameChild(s: State, t: State, k: ChildKey) {
    && (k in t.objects <==> k in s.objects) && (k in s.objects ==> t.objects[k] == s.objects[k])
    && Count(t.writes, k) == Count(s.writes, k)
  }

  lemma CallTouches(s: State, site: Key, f: Flight, call: Call, rest: seq<Call>, o: Outcome, k: ChildKey)
    requires call.Put? ==> call.child.key != k
    ensures SameChild(s, Performed(s, site, f, call, rest, o), k)
  {
  }

  predicate OfOthers(e: Event, k: ChildKey) {
    e.Drift? || e.Touch? || e.Hold? || e.Release? || e.Removal? ==> e.key != k
  }

  /** Nothing in flight is about the child. */
  ghost predicate NoneFor(s: State, c: Config, k: ChildKey) {
    forall site | site in s.flights :: !HasChild(site, s.flights[site].intent, c, k)
  }

  lemma EventUntouched(s: State, e: Event, c: Config, k: ChildKey)
    requires OfOthers(e, k) && !(e.CallEnd? && e.site in s.flights && s.flights[e.site].todo != [])
    ensures SameChild(s, Step(s, e, c), k)
  {
  }

  lemma CallUntouched(s: State, site: Key, f: Flight, o: Outcome, c: Config, k: ChildKey)
    requires FlightFits(s, site, f, c) && NoneFor(s, c, k) && site in s.flights && s.flights[site] == f && f.todo != []
    ensures var t := Performed(s, site, f, f.todo[0], f.todo[1..], o); SameChild(s, t, k) && NoneFor(t, c, k)
  {
    assert f.todo[0] in f.todo && !HasChild(site, f.intent, c, k);
    CallTouches(s, site, f, f.todo[0], f.todo[1..], o, k);
    IntentStays(s, site, f, f.todo[0], f.todo[1..], o);
  }

  lemma StepUntouched(s: State, e: Event, c: Config, k: ChildKey)
    requires Invariant(s, c) && NoneFor(s, c, k) && OfOthers(e, k)
    requires e.Begin? ==> !HasChild(e.site, e.intent, c, k)
    ensures SameChild(s, Step(s, e, c), k) && NoneFor(Step(s, e, c), c, k)
  {
    if e.CallEnd? && e.site in s.flights && s.flights[e.site].todo != [] {
      CallUntouched(s, e.site, s.flights[e.site], e.outcome, c, k);
    } else {
      EventUntouched(s, e, c, k);
      if !e.Begin? && !e.CallEnd? { ForeignLater(s, e, c); }
    }
  }

  lemma IntentStays(s: State, site: Key, f: Flight, call: Call, rest: seq<Call>, o: Outcome)
    requires site in s.flights && s.flights[site] == f
    ensures var t := Performed(s, site, f, call, rest, o);
      forall b | b in t.flights :: b in s.flights && t.flights[b].intent == s.flights[b].intent
                                   && (b != site ==> t.flights[b] == s.flights[b])
  {
  }

  lemma {:induction false} RunUntouched(s: State, events: seq<Event>, c: Config, k: ChildKey)
    requires Invariant(s, c) && NoneFor(s, c, k) && forall e | e in events :: OfOthers(e, k)
    requires forall e | e in events && e.Begin? :: !HasChild(e.site, e.intent, c, k)
    ensures SameChild(s, Run(s, events, c), k)
    decreases |events|
  {
    if |events| > 0 {
      assert events[0] in events && forall e | e in events[1..] :: e in events;
      StepUntouched(s, events[0], c, k);
      StepKeeps(s, events[0], c);
      RunUntouched(Step(s, events[0], c), events[1..], c, k);
    }
  }

  /**
   * Reconciles of any other sites, interleaved call by call and ending as they may, leave every child of a site alone
   * unless they are in its namespace and deploy to its repository.
   */
  lemma OthersUntouched(s: State, events: seq<Event>, b: Key, j: Intent, c: Config, k: ChildKey)
    requires Invariant(s, c) && s.flights == map[] && HasChild(b, j, c, k) && forall e | e in events :: OfOthers(e, k)
    requires forall e | e in events && e.Begin? ::
      e.site != b && !(e.site.ns == b.ns && DeployRepo(e.site, e.intent, c) == DeployRepo(b, j, c))
    ensures SameChild(s, Run(s, events, c), k)
  {
    forall e | e in events && e.Begin? ensures !HasChild(e.site, e.intent, c, k) {
      ShareIff(e.site, e.intent, b, j, c);
    }
    RunUntouched(s, events, c, k);
  }

  // ----- no rewrite churn -----

  /** How many writes it takes for the child to be as wanted: one that is being deleted goes when it is replaced. */
  function Due(s: State, k: ChildKey, w: Content): nat {
    if k !in s.objects then 1
    else (if s.objects[k].content == w then 0 else 1) + (if s.objects[k].deleting then 1 else 0)
  }

  /** What is in flight wants that content of the child. */
  ghost predicate FlightsWant(s: State, k: ChildKey, w: Content) {
    forall site, call | site in s.flights && call in s.flights[site].todo && !call.Plain? && call.child.key == k ::
      call.child.content == w
  }

  predicate Disturbs(e: Event, k: ChildKey) {
    (e.Drift? || e.Removal?) && e.key == k
  }

  function Foreign(events: seq<Event>, k: ChildKey): nat {
    if |events| == 0 then 0 else (if Disturbs(events[0], k) then 1 else 0) + Foreign(events[1..], k)
  }

  lemma WriteBalances(s: State, owner: nat, x: Child, read: Option<nat>)
    requires Warranted(s, Put(x, read)) && Fits(s, x.key, read) && x.key.kind.Compared()
    requires forall k | k in s.objects :: s.objects[k].rev < s.clock
    ensures var t := Written(s, owner, x);
      Count(t.writes, x.key) + Due(t, x.key, x.content) == Count(s.writes, x.key) + Due(s, x.key, x.content)
  {
  }

  lemma CallBalances(s: State, site: Key, f: Flight, call: Call, rest: seq<Call>, o: Outcome, k: ChildKey, w: Content)
    requires Warranted(s, call) && k.kind.Compared() && forall j | j in s.objects :: s.objects[j].rev < s.clock
    requires call.Put? && call.child.key == k ==> call.child.content == w
    ensures var t := Performed(s, site, f, call, rest, o);
      Count(t.writes, k) + Due(t, k, w) == Count(s.writes, k) + Due(s, k, w)
  {
    if call.Put? && call.child.key == k && Fits(s, k, call.read) {
      WriteBalances(s, f.uid, call.child, call.read);
    } else {
      CallUnchanged(s, site, f, call, rest, o, k);
    }
  }

  lemma CallUnchanged(s: State, site: Key, f: Flight, call: Call, rest: seq<Call>, o: Outcome, k: ChildKey)
    requires call.Put? && call.child.key == k ==> !Fits(s, k, call.read)
    ensures SameChild(s, Performed(s, site, f, call, rest, o), k)
  {
  }

  lemma StepBalances(s: State, e: Event, c: Config, k: ChildKey, w: Content)
    requires Invariant(s, c) && FlightsWant(s, k, w) && k.kind.Compared()
    ensures var t := Step(s, e, c);
      && Count(t.writes, k) + Due(t, k, w) <= Count(s.writes, k) + Due(s, k, w) + (if Disturbs(e, k) then 1 else 0)
      && (!e.Release? && !Disturbs(e, k) ==> Count(t.writes, k) + Due(t, k, w) == Count(s.writes, k) + Due(s, k, w))
  {
    if e.CallEnd? && e.site in s.flights && s.flights[e.site].todo != [] {
      var f := s.flights[e.site];
      assert FlightFits(s, e.site, f, c) && f.todo[0] in f.todo;
      CallBalances(s, e.site, f, f.todo[0], f.todo[1..], e.outcome, k, w);
    } else if OfOthers(e, k) {
      EventUntouched(s, e, c, k);
    } else {
      OwnEventBalances(s, e, c, k, w);
    }
  }

  lemma OwnEventBalances(s: State, e: Event, c: Config, k: ChildKey, w: Content)
    requires !OfOthers(e, k)
    ensures var t := Step(s, e, c);
      && Count(t.writes, k) + Due(t, k, w) <= Count(s.writes, k) + Due(s, k, w) + (if Disturbs(e, k) then 1 else 0)
      && (!e.Release? && !Disturbs(e, k) ==> Count(t.writes, k) + Due(t, k, w) == Count(s.writes, k) + Due(s, k, w))
  {
  }

  ghost predicate Wants(events: seq<Event>, c: Config, k: ChildKey, w: Content) {
    forall e, x: Child | e in events && e.Begin? && Emits(e.site, e.intent, c, x) && x.key == k :: x.content == w
  }

  lemma CallWants(s: State, site: Key, f: Flight, call: Call, rest: seq<Call>, o: Outcome, k: ChildKey, w: Content)
    requires FlightsWant(s, k, w) && site in s.flights && s.flights[site] == f && f.todo == [call] + rest
    ensures FlightsWant(Performed(s, site, f, call, rest, o), k, w)
  {
    var t := Performed(s, site, f, call, rest, o);
    assert call in f.todo && forall d | d in rest :: d in f.todo;
    forall b, d | b in t.flights && d in t.flights[b].todo && !d.Plain? && d.child.key == k
      ensures d.child.content == w {
      IntentStays(s, site, f, call, rest, o);
      if b == site { assert d in rest || (call.Look? && d.child == call.child); }
    }
  }

  lemma StepWants(s: State, e: Event, c: Config, k: ChildKey, w: Content)
    requires FlightsWant(s, k, w) && (e.Begin? ==> Wants([e], c, k, w))
    ensures FlightsWant(Step(s, e, c), k, w)
  {
    if e.Begin? {
      assert e in [e];
      ProgramEmits(e.site, e.intent, c);
    } else if e.CallEnd? && e.site in s.flights && s.flights[e.site].todo != [] {
      var f := s.flights[e.site];
      assert f.todo == [f.todo[0]] + f.todo[1..];
      CallWants(s, e.site, f, f.todo[0], f.todo[1..], e.outcome, k, w);
    }
  }

  /** What nobody else touches is absent, or as wanted and not being deleted. */
  ghost predicate Pristine(s: State, k: ChildKey, w: Content) {
    k in s.objects ==> s.objects[k].content == w && !s.objects[k].deleting
  }

  lemma StepPristine(s: State, e: Event, c: Config, k: ChildKey, w: Content)
    requires FlightsWant(s, k, w) && Pristine(s, k, w) && !Disturbs(e, k)
    ensures Pristine(Step(s, e, c), k, w)
  {
    if e.CallEnd? && e.site in s.flights && s.flights[e.site].todo != [] {
      var f := s.flights[e.site];
      assert f.todo[0] in f.todo;
      CallPristine(s, e.site, f, f.todo[0], f.todo[1..], e.outcome, k, w);
    }
  }

  lemma CallPristine(s: State, site: Key, f: Flight, call: Call, rest: seq<Call>, o: Outcome, k: ChildKey, w: Content)
    requires Pristine(s, k, w) && (call.Put? && call.child.key == k ==> call.child.content == w)
    ensures Pristine(Performed(s, site, f, call, rest, o), k, w)
  {
  }

  lemma {:induction false} RunBalances(s: State, events: seq<Event>, c: Config, k: ChildKey, w: Content)
    requires Invariant(s, c) && FlightsWant(s, k, w) && k.kind.Compared() && Wants(events, c, k, w)
    ensures var t := Run(s, events, c);
      && Count(t.writes, k) + Due(t, k, w) <= Count(s.writes, k) + Due(s, k, w) + Foreign(events, k)
      && (Foreign(events, k) == 0 && Pristine(s, k, w) ==>
            Pristine(t, k, w) && Count(t.writes, k) + Due(t, k, w) == Count(s.writes, k) + Due(s, k, w))
    decreases |events|
  {
    if |events| > 0 {
      var e := events[0];
      assert e in events && forall d | d in events[1..] :: d in events;
      assert Wants([e], c, k, w);
      StepKeeps(s, e, c);
      StepBalances(s, e, c, k, w);
      StepWants(s, e, c, k, w);
      if !Disturbs(e, k) && Pristine(s, k, w) {
        StepPristine(s, e, c, k, w);
        assert e.Release? ==> Due(Step(s, e, c), k, w) == Due(s, k, w);
      }
      RunBalances(Step(s, e, c), events[1..], c, k, w);
    }
  }

  /** No site is ever moved between its own cluster and the management cluster. */
  ghost predicate Placed(events: seq<Event>, colocated: set<Key>) {
    forall e | e in events && e.Begin? :: e.intent.colocated <==> e.site in colocated
  }

  lemma WantedContent(events: seq<Event>, c: Config, colocated: set<Key>, k: ChildKey) returns (w: Content)
    requires Placed(events, colocated) && k.kind.Compared()
    ensures Wants(events, c, k, w)
  {
    if e, x: Child :| e in events && e.Begin? && Emits(e.site, e.intent, c, x) && x.key == k {
      w := x.content;
      forall f, y: Child | f in events && f.Begin? && Emits(f.site, f.intent, c, y) && y.key == k
        ensures y.content == w {
        SameKeySameContent(e.site, e.intent, x, f.site, f.intent, y, c);
      }
    } else {
      w := Claim("", 0);
    }
  }

  /**
   * From an empty management cluster, over reconciles of any sites that interleave call by call, fail, and die
   * anywhere, while others hold, release and touch what they like: a package or claim that nobody else rewrites or
   * removes has been written exactly once if it exists and never if it does not, and each rewrite or removal by
   * others costs at most one write more.
   */
  lemma WrittenOnce(events: seq<Event>, c: Config, colocated: set<Key>, k: ChildKey)
    requires Placed(events, colocated) && k.kind.Compared()
    ensures var t := Run(EMPTY, events, c);
      && Count(t.writes, k) <= 1 + Foreign(events, k)
      && (Foreign(events, k) == 0 ==> (Count(t.writes, k) == if k in t.objects then 1 else 0))
  {
    var w := WantedContent(events, c, colocated, k);
    RunBalances(EMPTY, events, c, k, w);
  }
}

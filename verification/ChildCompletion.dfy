/** What one reconcile of a site leaves behind when all its calls end well and nothing comes between them. */
module ChildCompletion {
  import opened Calls
  import opened Text
  import opened Sites
  import opened Children
  import opened ChildRuns

  function Left(todo: seq<Call>): nat {
    if |todo| == 0 then 0 else (if todo[0].Look? then 2 else 1) + Left(todo[1..])
  }

  /** The calls the site's reconcile can still make. */
  function ToGo(s: State, site: Key): nat {
    if site in s.flights then 1 + Left(s.flights[site].todo) else 0
  }

  lemma LessToGo(s: State, site: Key, c: Config)
    requires site in s.flights
    ensures ToGo(Step(s, CallEnd(site, Done), c), site) < ToGo(s, site)
  {
    var f := s.flights[site];
    if f.todo != [] && f.todo[0].Look? {
      var x, rest := f.todo[0].child, f.todo[1..];
      assert ([Put(x, Revision(s, x.key))] + rest)[1..] == rest;
    }
  }

  /** The reconcile of the site goes on to its end, every call ending well. */
  function Finished(s: State, site: Key, c: Config): State
    decreases ToGo(s, site)
  {
    if site !in s.flights then s
    else
      LessToGo(s, site, c);
      Finished(Step(s, CallEnd(site, Done), c), site, c)
  }

  /** That is a run. */
  lemma {:induction false} FinishedIsRun(s: State, site: Key, c: Config) returns (events: seq<Event>)
    ensures (forall e | e in events :: e == CallEnd(site, Done)) && Run(s, events, c) == Finished(s, site, c)
    decreases ToGo(s, site)
  {
    events := [];
    if site in s.flights {
      LessToGo(s, site, c);
      var more := FinishedIsRun(Step(s, CallEnd(site, Done), c), site, c);
      events := [CallEnd(site, Done)] + more;
      assert events[1..] == more;
    }
  }

  // ----- the steps one after another -----

  function Emitted(s: State, owner: nat, x: Child): State {
    if AsWanted(s, x) then s else Written(s, owner, x)
  }

  function AfterOne(s: State, owner: nat, step: Task): State {
    if step.Emit? then Emitted(s, owner, step.child) else s
  }

  function AfterAll(s: State, owner: nat, steps: seq<Task>): State
    decreases |steps|
  {
    if |steps| == 0 then s else AfterAll(AfterOne(s, owner, steps[0]), owner, steps[1..])
  }

  lemma FlightsOfOne(s: State, owner: nat, step: Task)
    ensures AfterOne(s, owner, step).flights == s.flights
  {
  }

  function Flying(s: State, site: Key, f: Flight, todo: seq<Call>): State {
    s.(flights := s.flights[site := f.(todo := todo)])
  }

  lemma FlyOn(s: State, site: Key, f: Flight, todo: seq<Call>, next: seq<Call>)
    requires next != []
    ensures Continue(Flying(s, site, f, todo), site, f.(todo := todo), next) == Flying(s, site, f, next)
  {
  }

  lemma LookThenPut(s: State, site: Key, f: Flight, x: Child, rest: seq<Call>, c: Config)
    requires rest != []
    ensures Finished(Flying(s, site, f, [Look(x)] + rest), site, c) ==
      Finished(Flying(Emitted(s, f.uid, x), site, f, rest), site, c)
  {
    var todo, put := [Look(x)] + rest, Put(x, Revision(s, x.key));
    var flying := Flying(s, site, f, todo);
    assert todo[1..] == rest && ([put] + rest)[1..] == rest;
    FlyOn(s, site, f, todo, rest);
    if !AsWanted(s, x) {
      FlyOn(s, site, f, todo, [put] + rest);
      assert Step(flying, CallEnd(site, Done), c) == Flying(s, site, f, [put] + rest);
      PutDone(s, site, f, put, rest, c);
    } else {
      assert Step(flying, CallEnd(site, Done), c) == Flying(s, site, f, rest);
    }
  }

  lemma PutDone(s: State, site: Key, f: Flight, put: Call, rest: seq<Call>, c: Config)
    requires rest != [] && put.Put? && put.read == Revision(s, put.child.key)
    ensures Step(Flying(s, site, f, [put] + rest), CallEnd(site, Done), c) ==
      Flying(Written(s, f.uid, put.child), site, f, rest)
  {
    var todo := [put] + rest;
    assert todo[1..] == rest;
    FlyOn(Written(s, f.uid, put.child), site, f, todo, rest);
    assert Written(Flying(s, site, f, todo), f.uid, put.child) == Flying(Written(s, f.uid, put.child), site, f, todo);
  }

  lemma PlainDone(s: State, site: Key, f: Flight, rest: seq<Call>, c: Config)
    requires rest != []
    ensures Finished(Flying(s, site, f, [Plain] + rest), site, c) == Finished(Flying(s, site, f, rest), site, c)
  {
    assert ([Plain] + rest)[1..] == rest;
    FlyOn(s, site, f, [Plain] + rest, rest);
    assert Step(Flying(s, site, f, [Plain] + rest), CallEnd(site, Done), c) == Flying(s, site, f, rest);
  }

  lemma ReportDone(s: State, site: Key, f: Flight, c: Config)
    requires site !in s.flights
    ensures Finished(Flying(s, site, f, [Plain]), site, c) == s
  {
    var flying := Flying(s, site, f, [Plain]);
    assert Step(flying, CallEnd(site, Done), c) == Abort(flying, site);
    assert Abort(flying, site).flights == s.flights;
  }

  lemma FirstStep(s: State, site: Key, f: Flight, step: Task, rest: seq<Call>, c: Config)
    requires rest != []
    ensures Finished(Flying(s, site, f, [CallOf(step)] + rest), site, c) ==
      Finished(Flying(AfterOne(s, f.uid, step), site, f, rest), site, c)
  {
    if step.Emit? { LookThenPut(s, site, f, step.child, rest, c); } else { PlainDone(s, site, f, rest, c); }
  }

  lemma FirstCalls(steps: seq<Task>)
    requires |steps| > 0
    ensures CallsOf(steps) + [Plain] == [CallOf(steps[0])] + (CallsOf(steps[1..]) + [Plain])
  {
  }

  /** Undisturbed, the calls do what the steps say. */
  lemma {:induction false} StepsDone(s: State, site: Key, f: Flight, steps: seq<Task>, c: Config)
    requires site !in s.flights
    ensures Finished(Flying(s, site, f, CallsOf(steps) + [Plain]), site, c) == AfterAll(s, f.uid, steps)
    decreases |steps|
  {
    if |steps| == 0 {
      assert CallsOf(steps) + [Plain] == [Plain];
      ReportDone(s, site, f, c);
    } else {
      FirstCalls(steps);
      FirstStep(s, site, f, steps[0], CallsOf(steps[1..]) + [Plain], c);
      FlightsOfOne(s, f.uid, steps[0]);
      StepsDone(AfterOne(s, f.uid, steps[0]), site, f, steps[1..], c);
    }
  }

  // ----- what a child comes to -----

  lemma OneTouches(s: State, owner: nat, step: Task, k: ChildKey)
    requires step.Emit? ==> step.child.key != k
    ensures SameChild(s, AfterOne(s, owner, step), k)
  {
  }

  lemma {:induction false} NotAmong(s: State, owner: nat, steps: seq<Task>, k: ChildKey)
    requires forall x: Child | Emit(x) in steps :: x.key != k
    ensures SameChild(s, AfterAll(s, owner, steps), k)
    decreases |steps|
  {
    if |steps| > 0 {
      assert steps[0] in steps;
      OneTouches(s, owner, steps[0], k);
      NotAmong(AfterOne(s, owner, steps[0]), owner, steps[1..], k);
    }
  }

  /** The child is in both and says the same, or in neither. */
  predicate Alike(s: State, t: State, k: ChildKey) {
    (k in s.objects <==> k in t.objects) && (k in s.objects ==> s.objects[k] == t.objects[k].(rev := s.objects[k].rev))
  }

  /** The child's own step decides, wherever it stands. */
  lemma {:induction false} OwnStepDecides(s: State, owner: nat, steps: seq<Task>, n: nat, x: Child)
    requires n < |steps| && steps[n] == Emit(x)
    requires forall i | 0 <= i < |steps| && i != n && steps[i].Emit? :: steps[i].child.key != x.key
    ensures Alike(AfterAll(s, owner, steps), Emitted(s, owner, x), x.key)
    decreases n
  {
    if n == 0 {
      NotAmong(Emitted(s, owner, x), owner, steps[1..], x.key);
    } else {
      var t := AfterOne(s, owner, steps[0]);
      OneTouches(s, owner, steps[0], x.key);
      OwnStepDecides(t, owner, steps[1..], n - 1, x);
      EmittedAlike(s, t, owner, x);
    }
  }

  lemma EmittedAlike(s: State, t: State, owner: nat, x: Child)
    requires SameChild(s, t, x.key)
    ensures Alike(Emitted(t, owner, x), Emitted(s, owner, x), x.key)
  {
  }

  /** The operator is about to replace a child that is being deleted. */
  predicate Doomed(s: State, x: Child) {
    x.key in s.objects && s.objects[x.key].deleting && !AsWanted(s, x)
  }

  lemma EmittedIs(s: State, owner: nat, x: Child)
    requires x.key in s.objects ==> Held(s.objects[x.key])
    ensures var t := Emitted(s, owner, x);
      if Doomed(s, x) then x.key !in t.objects
      else x.key in t.objects && t.objects[x.key].content == x.content && Kept(s, t, owner, x)
  {
  }

  /** One that is as wanted stays as it is; any other is its writer's, held by nothing. */
  predicate Kept(s: State, t: State, owner: nat, x: Child)
    requires x.key in t.objects
  {
    var after := t.objects[x.key];
    if AsWanted(s, x) then after == s.objects[x.key].(rev := after.rev)
    else after.owner == owner && after.finalizers == {} && !after.deleting
  }

  lemma StepOf(site: Key, i: Intent, c: Config, x: Child) returns (n: nat)
    requires Emits(site, i, c, x)
    ensures var steps := Steps(site, i, c);
      && n < |steps| && steps[n] == Emit(x)
      && forall j | 0 <= j < |steps| && j != n && steps[j].Emit? :: steps[j].child.key != x.key
  {
    var steps := Steps(site, i, c);
    StepsEmit(site, i, c, x);
    n :| n < |steps| && steps[n] == Emit(x);
    forall j | 0 <= j < |steps| && j != n && steps[j].Emit? ensures steps[j].child.key != x.key {
      if j < n { EmittedOnce(site, i, c, j, n); } else { EmittedOnce(site, i, c, n, j); }
    }
  }

  lemma Undisturbed(s: State, site: Key, uid: nat, i: Intent, c: Config)
    requires site !in s.flights
    ensures Finished(Step(s, Begin(site, uid, i), c), site, c) == AfterAll(s, uid, Steps(site, i, c))
  {
    StepsDone(s, site, Flight(uid, i, Program(site, i, c)), Steps(site, i, c), c);
  }

  /**
   * A reconcile all of whose calls end well leaves each child of the site as wanted, whatever was there before, exactly
   * unless it finds the child being deleted and has to replace it: that takes the finalizers off, and the child goes.
   */
  lemma ReconcileCompletesIff(s: State, site: Key, uid: nat, i: Intent, c: Config, x: Child)
    requires Invariant(s, c) && site !in s.flights && Emits(site, i, c, x)
    ensures var t := Finished(Step(s, Begin(site, uid, i), c), site, c);
      && t.flights == s.flights
      && if Doomed(s, x) then x.key !in t.objects
         else x.key in t.objects && t.objects[x.key].content == x.content && Kept(s, t, uid, x)
  {
    var n := StepOf(site, i, c, x);
    Undisturbed(s, site, uid, i, c);
    OwnStepDecides(s, uid, Steps(site, i, c), n, x);
    EmittedIs(s, uid, x);
    FlightsKept(s, uid, Steps(site, i, c));
  }

  lemma {:induction false} FlightsKept(s: State, owner: nat, steps: seq<Task>)
    ensures AfterAll(s, owner, steps).flights == s.flights
    decreases |steps|
  {
    if |steps| > 0 {
      FlightsOfOne(s, owner, steps[0]);
      FlightsKept(AfterOne(s, owner, steps[0]), owner, steps[1..]);
    }
  }
}

/** The self-heal pass of one agent, as it runs over the listed pods. */
module PodHealer {
  import opened Text
  import opened Calls
  import opened SelfHeal
  import Strikes

  /** What happens while a pass is under way that the pass does not do itself. */
  type Outside = e: Event | !e.List? && !e.DeleteEnd? witness Wait(0)

  /** One listing, then deletions of names judged sick in it, with anything else in between. */
  ghost predicate OfPass(agent: string, sick: map<string, nat>, events: seq<Event>) {
    |events| > 0 && events[0] == List(agent)
    && forall i | 0 < i < |events| ::
         if events[i].DeleteEnd? then events[i].agent == agent && events[i].name in sick else !events[i].List?
  }

  /** Of every pod such a pass strikes it is known exactly when it is Ready and when it is already terminating. */
  lemma PassStrikes(s: State, agent: string, events: seq<Event>, i: nat)
    requires OfPass(agent, SickOnes(s), events) && 0 < i < |events| && Deletes(Run(s, events[..i]), events[i])
    ensures var judged, since := Step(s, List(agent)), events[1..i];
      var p := Run(s, events[..i]).pods[events[i].name];
      && (Ready(p.conditions) <==> Strikes.LastToldReady(judged, since, events[i].name))
      && (p.terminating <==> Strikes.DoomedSince(judged, since, events[i].name))
  {
    assert events[..i][1..] == events[1..i];
    Strikes.StrikesReadyIff(s, agent, events[1..i], events[i].name, events[i].outcome);
  }

  method PodReady(p: Pod) returns (ready: bool)
    ensures ready == Ready(p.conditions)
  {
    for i := 0 to |p.conditions|
      invariant Ready(p.conditions) == Ready(p.conditions[i..])
    {
      if p.conditions[i].kind == "Ready" {
        return p.conditions[i].status == "True";
      }
    }
    return false;
  }

  method HasSecondaryNets(p: Pod, names: seq<string>) returns (all: bool)
    ensures all == HasNets(p, names)
  {
    for i := 0 to |names|
      invariant forall n | n in names[..i] :: HasNet(p.networks, n)
    {
      if !Contains(p.networks, "\"interface\":\"" + names[i] + "\"")
        && !Contains(p.networks, "\"interface\": \"" + names[i] + "\"") {
        assert !HasNet(p.networks, names[i]);
        return false;
      }
      assert names[..i + 1] == names[..i] + [names[i]];
    }
    assert names[..|names|] == names;
    return true;
  }

  /** A pod that is neither Ready nor already going away is deleted if it crash-loops or lacks an interface in time. */
  method NeedsRecreate(p: Pod, now: int) returns (sick: bool)
    ensures sick == Sick(p, now)
    ensures sick <==>
      && !p.terminating && !FirstReadyIsTrue(p.conditions)
      && (Restarts(p.initRestarts) >= 3 || (now - p.created > 45_000_000_000 && LacksNet(p.networks)))
  {
    SickMeans(p, now);
    var ready := PodReady(p);
    if p.terminating || ready { return false; }
    var restarts := 0;
    for i := 0 to |p.initRestarts|
      invariant restarts == Restarts(p.initRestarts[..i])
    {
      assert p.initRestarts[..i + 1][..i] == p.initRestarts[..i];
      restarts := Wrap32(restarts + p.initRestarts[i]);
    }
    assert p.initRestarts[..|p.initRestarts|] == p.initRestarts;
    var nets := HasSecondaryNets(p, NETS);
    return restarts >= 3 || (now - p.created > PATIENCE && !nets);
  }

  /** The pods after a pass: the sick ones whose deletion took effect are terminating, all others are as they were. */
  function Healed(pods: map<string, Pod>, now: int, among: seq<string>, outcome: string -> Outcome): map<string, Pod> {
    map n | n in pods ::
      if n in among && Sick(pods[n], now) && outcome(n).Effective() then pods[n].(terminating := true) else pods[n]
  }

  ghost predicate Silent(others: string -> seq<Outside>) {
    forall n :: others(n) == []
  }

  lemma HealedMeans(pods: map<string, Pod>, now: int, among: seq<string>, outcome: string -> Outcome)
    requires forall n | n in pods :: n in among
    ensures forall n | n in pods ::
      Healed(pods, now, among, outcome)[n] ==
      if outcome(n).Effective() && !pods[n].terminating && !FirstReadyIsTrue(pods[n].conditions)
         && (|| Restarts(pods[n].initRestarts) >= 3
             || (now - pods[n].created > 45_000_000_000 && LacksNet(pods[n].networks)))
      then pods[n].(terminating := true) else pods[n]
  {
    forall n | n in pods
      ensures Sick(pods[n], now) <==>
        && !pods[n].terminating && !FirstReadyIsTrue(pods[n].conditions)
        && (|| Restarts(pods[n].initRestarts) >= 3
            || (now - pods[n].created > 45_000_000_000 && LacksNet(pods[n].networks)))
    {
      SickMeans(pods[n], now);
    }
  }

  lemma HealedNext(pods: map<string, Pod>, now: int, items: seq<string>, i: nat, outcome: string -> Outcome)
    requires i < |items| && items[i] in pods && items[i] !in items[..i]
    ensures var (was, n) := (Healed(pods, now, items[..i], outcome), items[i]);
      && was[n] == pods[n]
      && Healed(pods, now, items[..i + 1], outcome) ==
           if Sick(pods[n], now) && outcome(n).Effective() then Marked(was, n) else was
  {
    assert items[..i + 1] == items[..i] + [items[i]];
  }

  /** The verdicts still to act on after `done` have been. */
  function Left(sick: map<string, nat>, done: seq<string>): map<string, nat> {
    map n | n in sick && n !in done :: sick[n]
  }

  lemma LeftNext(sick: map<string, nat>, items: seq<string>, i: nat)
    requires i < |items| && items[i] !in items[..i]
    ensures Left(sick, items[..i + 1]) == if items[i] in sick then Drop(Left(sick, items[..i]), items[i])
      else Left(sick, items[..i])
    ensures items[i] in sick ==> items[i] in Left(sick, items[..i])
  {
    assert items[..i + 1] == items[..i] + [items[i]];
  }

  class Agent {
    const name: string
    var pods: map<string, Pod>
    var now: int
    ghost var verdicts: map<string, map<string, nat>>
    var nextUid: nat

    ghost function View(): State
      reads this
    {
      State(pods, verdicts, now, nextUid)
    }

    constructor (agent: string)
      ensures name == agent && View() == State(map[], map[], 0, 0)
    {
      name, pods, now, verdicts, nextUid := agent, map[], 0, map[], 0;
    }

    method Delete(n: string, o: Outcome)
      requires name in verdicts && n in verdicts[name]
      modifies this`pods, this`verdicts
      ensures View() == Step(old(View()), DeleteEnd(name, n, o))
      ensures pods == if o.Effective() then Marked(old(pods), n) else old(pods)
      ensures name in verdicts && verdicts[name] == Drop(old(verdicts)[name], n)
    {
      if o.Effective() { pods := Marked(pods, n); }
      verdicts := verdicts[name := Drop(verdicts[name], n)];
    }

    /** Others act: the StatefulSet, the kubelet, users, agents of other nodes, and the clock. */
    method Happen(e: Outside)
      modifies this`pods, this`now, this`nextUid
      ensures View() == Step(old(View()), e)
    {
      match e {
        case Recreate(n, conditions, restarts, networks) =>
          if n !in pods {
            pods := pods[n := Pod(nextUid, now, false, conditions, restarts, networks)];
            nextUid := nextUid + 1;
          }
        case Report(n, conditions, restarts, networks) =>
          if n in pods {
            pods := pods[n := pods[n].(conditions := conditions, initRestarts := restarts, networks := networks)];
          }
        case OtherDelete(n) => pods := Marked(pods, n);
        case Gone(n) => pods := Drop(pods, n);
        case Wait(t) => now := now + t;
      }
    }

    method AllHappen(others: seq<Outside>, ghost was: State,
      ghost before: seq<Event>) returns (ghost events: seq<Event>)
      requires View() == Run(was, before) && OfPass(name, SickOnes(was), before)
      modifies this`pods, this`now, this`nextUid
      ensures View() == Run(was, events) && OfPass(name, SickOnes(was), events)
      ensures others == [] ==> pods == old(pods)
    {
      events := before;
      for i := 0 to |others|
        invariant View() == Run(was, events) && OfPass(name, SickOnes(was), events)
        invariant verdicts == old(verdicts) && (i == 0 ==> pods == old(pods))
      {
        RunOne(was, events, others[i]);
        Happen(others[i]);
        events := events + [others[i]];
      }
    }

    /** One turn of the loop: others act, then the deletion of a name judged sick is made. */
    method DeleteListed(n: string, others: seq<Outside>, o: Outcome, ghost was: State, ghost before: seq<Event>)
      returns (ghost events: seq<Event>)
      requires View() == Run(was, before) && OfPass(name, SickOnes(was), before)
      requires name in verdicts && n in verdicts[name] && n in SickOnes(was)
      modifies this`pods, this`now, this`nextUid, this`verdicts
      ensures View() == Run(was, events) && OfPass(name, SickOnes(was), events)
      ensures name in verdicts && verdicts[name] == Drop(old(verdicts)[name], n)
      ensures others == [] ==> pods == if o.Effective() then Marked(old(pods), n) else old(pods)
    {
      events := AllHappen(others, was, before);
      RunOne(was, events, DeleteEnd(name, n, o));
      Delete(n, o);
      events := events + [DeleteEnd(name, n, o)];
    }

    /**
     * `listed` is None when the selector does not parse or the list fails; `others` is what happens before each
     * deletion. The pass is a run of the machine. When nobody interferes it marks exactly the sick pods whose deletion
     * took effect, so Ready and terminating ones stay as they are.
     */
    method EnsureUpfHealthy(listed: Option<seq<string>>, others: string -> seq<Outside>, outcome: string -> Outcome)
      returns (ghost events: seq<Event>)
      requires listed.Some? ==> forall n :: n in listed.value <==> n in pods
      requires listed.Some? ==> forall i, j | 0 <= i < j < |listed.value| :: listed.value[i] != listed.value[j]
      modifies this`pods, this`now, this`nextUid, this`verdicts
      ensures View() == Run(old(View()), events)
      ensures if listed.None? then events == [] else OfPass(name, SickOnes(old(View())), events)
      ensures listed.Some? && Silent(others) ==> pods.Keys == old(pods.Keys)
      ensures listed.Some? && Silent(others) ==> forall n | n in old(pods) ::
        var p := old(pods)[n];
        pods[n] ==
        if outcome(n).Effective() && !p.terminating && !FirstReadyIsTrue(p.conditions)
           && (|| Restarts(p.initRestarts) >= 3
               || (old(now) - p.created > 45_000_000_000 && LacksNet(p.networks)))
        then p.(terminating := true) else p
    {
      events := [];
      if listed.None? { return; }
      ghost var was := View();
      verdicts := verdicts[name := SickOnes(was)];
      RunOne(was, [], List(name));
      assert [] + [List(name)] == [List(name)];
      HealedMeans(pods, now, listed.value, outcome);
      events := Work(listed.value, pods, now, others, outcome, was);
    }

    /** The loop over the listed pods, each judged as it was listed. */
    method Work(items: seq<string>, found: map<string, Pod>, time: int, others: string -> seq<Outside>,
                outcome: string -> Outcome,
                ghost was: State)
      returns (ghost events: seq<Event>)
      requires found == was.pods == pods && time == was.now && forall n :: n in items <==> n in found
      requires forall i, j | 0 <= i < j < |items| :: items[i] != items[j]
      requires View() == Run(was, [List(name)]) && name in verdicts && verdicts[name] == SickOnes(was)
      modifies this`pods, this`now, this`nextUid, this`verdicts
      ensures View() == Run(was, events) && OfPass(name, SickOnes(was), events)
      ensures Silent(others) ==> pods == Healed(found, time, items, outcome)
    {
      events := [List(name)];
      for i := 0 to |items|
        invariant Run(was, events) == View() && OfPass(name, SickOnes(was), events)
        invariant Silent(others) ==> pods == Healed(found, time, items[..i], outcome)
        invariant name in verdicts && verdicts[name] == Left(SickOnes(was), items[..i])
      {
        var sick := NeedsRecreate(found[items[i]], time);
        HealedNext(found, time, items, i, outcome);
        LeftNext(SickOnes(was), items, i);
        if sick {
          events := DeleteListed(items[i], others(items[i]), outcome(items[i]), was, events);
        }
      }
      assert items[..|items|] == items;
    }
  }
}

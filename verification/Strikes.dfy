/**
 * Which pods the self-heal strikes. A deletion is by name and comes some time after the judgement; these theorems say
 * exactly what the struck pod is like, for every agent, every name and every run of events in between.
 */
module Strikes {
  import opened Calls
  import opened SelfHeal

  /** The event sets the conditions of the pod called `n`. */
  predicate Tells(s: State, e: Event, n: string) {
    (e.Report? && e.name == n && n in s.pods) || Renews(s, e, n)
  }

  /** The event puts a new pod under the name. */
  predicate Renews(s: State, e: Event, n: string) {
    e.Recreate? && e.name == n && n !in s.pods
  }

  /** The event starts the termination of the pod called `n`: somebody's deletion, or an agent's. */
  predicate Dooms(s: State, e: Event, n: string) {
    n in s.pods && ((e.OtherDelete? && e.name == n) || (Deletes(s, e) && e.name == n))
  }

  function At(s: State, events: seq<Event>, i: nat): State
    requires i <= |events|
  {
    Run(s, events[..i])
  }

  /** The last event that set the pod's conditions made it Ready. */
  ghost predicate LastToldReady(s: State, events: seq<Event>, n: string) {
    exists i: nat :: LastTelling(s, events, n, i) && Ready(events[i].conditions)
  }

  /** A deletion of the name took effect, and no new pod came under it since. */
  ghost predicate DoomedSince(s: State, events: seq<Event>, n: string) {
    exists i: nat :: LastDoom(s, events, n, i)
  }

  // ----- one event more -----

  lemma Earlier(s: State, events: seq<Event>, e: Event, i: nat)
    requires i <= |events|
    ensures At(s, events + [e], i) == At(s, events, i)
  {
    assert (events + [e])[..i] == events[..i];
  }

  lemma AllEarlier(s: State, events: seq<Event>, e: Event)
    ensures forall i: nat | i <= |events| :: At(s, events + [e], i) == At(s, events, i)
    ensures At(s, events, |events|) == Run(s, events)
  {
    forall i: nat | i <= |events| ensures At(s, events + [e], i) == At(s, events, i) { Earlier(s, events, e, i); }
    assert events[..|events|] == events;
  }

  /** Event number `i` set the conditions, and none after it did. */
  ghost predicate LastTelling(s: State, events: seq<Event>, n: string, i: nat) {
    i < |events| && Tells(At(s, events, i), events[i], n)
    && forall j: nat | i < j < |events| :: !Tells(At(s, events, j), events[j], n)
  }

  lemma TellingMore(s: State, events: seq<Event>, e: Event, n: string, i: nat)
    ensures LastTelling(s, events + [e], n, i) <==>
      if Tells(Run(s, events), e, n) then i == |events| else LastTelling(s, events, n, i)
  {
    var all, m := events + [e], |events|;
    AllEarlier(s, events, e);
    assert Tells(At(s, all, m), all[m], n) <==> Tells(Run(s, events), e, n);
    if LastTelling(s, events, n, i) && !Tells(Run(s, events), e, n) {
      forall j: nat | i < j < |all| ensures !Tells(At(s, all, j), all[j], n) {
        if j < m { assert !Tells(At(s, events, j), events[j], n); }
      }
    }
    if LastTelling(s, all, n, i) && i < m {
      forall j: nat | i < j < m ensures !Tells(At(s, events, j), events[j], n) {
        assert !Tells(At(s, all, j), all[j], n);
      }
    }
  }

  lemma ToldMore(s: State, events: seq<Event>, e: Event, n: string)
    ensures LastToldReady(s, events + [e], n) <==>
      if Tells(Run(s, events), e, n) then Ready(e.conditions) else LastToldReady(s, events, n)
  {
    forall i: nat
      ensures LastTelling(s, events + [e], n, i) <==>
        if Tells(Run(s, events), e, n) then i == |events| else LastTelling(s, events, n, i)
    {
      TellingMore(s, events, e, n, i);
    }
    if Tells(Run(s, events), e, n) { assert LastTelling(s, events + [e], n, |events|); }
  }

  /** Event number `i` doomed the pod under the name, and no new one came after it. */
  ghost predicate LastDoom(s: State, events: seq<Event>, n: string, i: nat) {
    i < |events| && Dooms(At(s, events, i), events[i], n)
    && forall j: nat | i < j < |events| :: !Renews(At(s, events, j), events[j], n)
  }

  lemma DoomMore(s: State, events: seq<Event>, e: Event, n: string, i: nat)
    requires i < |events|
    ensures LastDoom(s, events + [e], n, i) <==> LastDoom(s, events, n, i) && !Renews(Run(s, events), e, n)
  {
    var all, m := events + [e], |events|;
    AllEarlier(s, events, e);
    assert Renews(At(s, all, m), all[m], n) <==> Renews(Run(s, events), e, n);
    if LastDoom(s, events, n, i) && !Renews(Run(s, events), e, n) {
      forall j: nat | i < j < |all| ensures !Renews(At(s, all, j), all[j], n) {
        if j < m { assert !Renews(At(s, events, j), events[j], n); }
      }
    }
    if LastDoom(s, all, n, i) {
      forall j: nat | i < j < m ensures !Renews(At(s, events, j), events[j], n) {
        assert !Renews(At(s, all, j), all[j], n);
      }
    }
  }

  lemma DoomedMore(s: State, events: seq<Event>, e: Event, n: string)
    ensures DoomedSince(s, events + [e], n) <==>
      Dooms(Run(s, events), e, n) || (DoomedSince(s, events, n) && !Renews(Run(s, events), e, n))
  {
    AllEarlier(s, events, e);
    assert LastDoom(s, events + [e], n, |events|) <==> Dooms(Run(s, events), e, n);
    forall i: nat | i < |events|
      ensures LastDoom(s, events + [e], n, i) <==> LastDoom(s, events, n, i) && !Renews(Run(s, events), e, n)
    {
      DoomMore(s, events, e, n, i);
    }
  }

  lemma Front(events: seq<Event>)
    requires |events| > 0
    ensures events == events[..|events| - 1] + [events[|events| - 1]]
  {
  }

  // ----- what the pod under a name is like -----

  /** What one event does to the pod under a name. */
  lemma OneEvent(s: State, e: Event, n: string)
    requires n in Step(s, e).pods
    ensures var p := Step(s, e).pods[n];
      && (Tells(s, e, n) ==> p.conditions == e.conditions)
      && (!Tells(s, e, n) ==> n in s.pods && p.conditions == s.pods[n].conditions)
      && (Renews(s, e, n) ==> !p.terminating)
      && (!Renews(s, e, n) ==> n in s.pods && (p.terminating <==> s.pods[n].terminating || Dooms(s, e, n)))
  {
  }

  lemma {:induction false} ReadyByTelling(s: State, events: seq<Event>, n: string)
    requires n in Run(s, events).pods && (n in s.pods ==> !Ready(s.pods[n].conditions))
    ensures Ready(Run(s, events).pods[n].conditions) <==> LastToldReady(s, events, n)
    decreases |events|
  {
    if |events| > 0 {
      var front, e := events[..|events| - 1], events[|events| - 1];
      Front(events);
      RunOne(s, front, e);
      ToldMore(s, front, e, n);
      OneEvent(Run(s, front), e, n);
      if !Tells(Run(s, front), e, n) { ReadyByTelling(s, front, n); }
    }
  }

  lemma {:induction false} TerminatingByDoom(s: State, events: seq<Event>, n: string)
    requires n in Run(s, events).pods && (n in s.pods ==> !s.pods[n].terminating)
    ensures Run(s, events).pods[n].terminating <==> DoomedSince(s, events, n)
    decreases |events|
  {
    if |events| > 0 {
      var front, e := events[..|events| - 1], events[|events| - 1];
      Front(events);
      RunOne(s, front, e);
      DoomedMore(s, front, e, n);
      OneEvent(Run(s, front), e, n);
      if !Renews(Run(s, front), e, n) { TerminatingByDoom(s, front, n); }
    }
  }

  // ----- the strikes of a pass -----

  /** Without a new listing an agent's deletions only get fewer. */
  lemma PendingShrinks(s: State, e: Event, agent: string, n: string)
    requires e != List(agent) && n in Pending(Step(s, e), agent)
    ensures n in Pending(s, agent)
  {
  }

  /** What an agent still means to delete was sick when it last listed. */
  lemma {:induction false} PendingWasSick(s: State, agent: string, since: seq<Event>, n: string)
    requires List(agent) !in since && n in Pending(Run(Step(s, List(agent)), since), agent)
    ensures n in s.pods && Sick(s.pods[n], s.now)
    decreases |since|
  {
    var t := Step(s, List(agent));
    if |since| == 0 {
      assert t.verdicts[agent] == SickOnes(s);
    } else {
      var front, e := since[..|since| - 1], since[|since| - 1];
      Front(since);
      RunOne(t, front, e);
      assert e in since && forall d | d in front :: d in since;
      PendingShrinks(Run(t, front), e, agent, n);
      PendingWasSick(s, agent, front, n);
    }
  }

  /**
   * Whichever agent, name and run since that agent's listing: the pod its deletion strikes is Ready exactly when the
   * last event to set its conditions made it so, and terminating exactly when a deletion of the name came after the
   * last new pod under it.
   */
  lemma StrikesReadyIff(s: State, agent: string, since: seq<Event>, n: string, o: Outcome)
    requires List(agent) !in since
    requires Deletes(Run(Step(s, List(agent)), since), DeleteEnd(agent, n, o))
    ensures var judged := Step(s, List(agent));
      var p := Run(judged, since).pods[n];
      && (Ready(p.conditions) <==> LastToldReady(judged, since, n))
      && (p.terminating <==> DoomedSince(judged, since, n))
  {
    PendingWasSick(s, agent, since, n);
    ReadyByTelling(Step(s, List(agent)), since, n);
    TerminatingByDoom(Step(s, List(agent)), since, n);
  }

  /** Nothing is said about the name, and no new pod or deletion comes under it. */
  ghost predicate Quiet(s: State, events: seq<Event>, n: string) {
    forall i: nat | i < |events| ::
      !Tells(At(s, events, i), events[i], n) && !Dooms(At(s, events, i), events[i], n)
  }

  lemma QuietFront(s: State, events: seq<Event>, e: Event, n: string)
    requires Quiet(s, events + [e], n)
    ensures Quiet(s, events, n) && !Tells(Run(s, events), e, n) && !Dooms(Run(s, events), e, n)
  {
    var all, m := events + [e], |events|;
    AllEarlier(s, events, e);
    assert !Tells(At(s, all, m), all[m], n) && !Dooms(At(s, all, m), all[m], n);
    forall i: nat | i < m ensures !Tells(At(s, events, i), events[i], n) && !Dooms(At(s, events, i), events[i], n) {
      assert !Tells(At(s, all, i), all[i], n) && !Dooms(At(s, all, i), all[i], n);
    }
  }

  lemma QuietEvent(s: State, e: Event, n: string)
    requires !Tells(s, e, n) && !Dooms(s, e, n) && n in Step(s, e).pods
    ensures n in s.pods && Step(s, e).pods[n] == s.pods[n] && Step(s, e).now >= s.now
  {
  }

  lemma {:induction false} QuietKeeps(s: State, events: seq<Event>, n: string)
    requires Quiet(s, events, n) && n in Run(s, events).pods
    ensures n in s.pods && Run(s, events).pods[n] == s.pods[n] && Run(s, events).now >= s.now
    decreases |events|
  {
    if |events| > 0 {
      var front, e := events[..|events| - 1], events[|events| - 1];
      Front(events);
      RunOne(s, front, e);
      QuietFront(s, front, e, n);
      QuietEvent(Run(s, front), e, n);
      QuietKeeps(s, front, n);
    }
  }

  /** So a deletion in a window quiet about its name strikes the very pod that was judged, and it is still sick. */
  lemma QuietStrikesSick(s: State, agent: string, since: seq<Event>, n: string, o: Outcome)
    requires List(agent) !in since && Quiet(Step(s, List(agent)), since, n)
    requires Deletes(Run(Step(s, List(agent)), since), DeleteEnd(agent, n, o))
    ensures var t := Run(Step(s, List(agent)), since);
      n in s.pods && t.pods[n] == s.pods[n] && Sick(t.pods[n], t.now)
  {
    PendingWasSick(s, agent, since, n);
    QuietKeeps(Step(s, List(agent)), since, n);
  }

  /** One agent alone can strike a Ready pod: the pod only has to become Ready after it was judged. */
  lemma OneAgentStrikesReady(s: State, agent: string, n: string, conditions: seq<Condition>, o: Outcome)
    requires n in s.pods && Sick(s.pods[n], s.now) && Ready(conditions) && o.Effective()
    ensures var t := Run(Step(s, List(agent)), [Report(n, conditions, [], "")]);
      Deletes(t, DeleteEnd(agent, n, o)) && Ready(t.pods[n].conditions)
  {
    var e := Report(n, conditions, [], "");
    assert [] + [e] == [e];
    RunOne(Step(s, List(agent)), [], e);
  }
}

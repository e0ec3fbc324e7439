/** What every reachable state of the MeshLink protocol keeps: why each remote object is there. */
module MeshSafety {
  import opened Calls
  import opened MeshLink

  /** A link holds its finalizer, or its site has rewritten it since it did. */
  predicate Answerable(s: State, k: string) {
    k in s.links && (s.links[k].finalizer || k in s.stripped)
  }

  /** A link that still answers for a service: if its cleanup is under way the deletion is still to come. */
  ghost predicate Answers(s: State, k: string, p: Place) {
    Answerable(s, k) && p in ServicePlaces(s.links[k].spec)
    && (k in s.flights && s.flights[k].Cleaning? ==> p in Deletes(s.flights[k].todo))
  }

  ghost predicate AnswersSlice(s: State, k: string, p: Place) {
    Answerable(s, k) && p == CpSlice(s.links[k].spec)
    && (k in s.flights && s.flights[k].Cleaning? ==> p in SliceDeletes(s.flights[k].todo))
  }

  /** Whatever was excused is still, unless it is gone. */
  ghost predicate LostKept(s: State, t: State) {
    && (forall p | p in t.services && Excused(s.lostServices, p) :: Excused(t.lostServices, p))
    && (forall p | p in t.slices && Excused(s.lostSlices, p) :: Excused(t.lostSlices, p))
  }

  /** Excuses are about things that are there. */
  ghost predicate ExcusesReal(s: State) {
    (forall x | x in s.lostServices :: x.place in s.services) && (forall x | x in s.lostSlices :: x.place in s.slices)
  }

  ghost predicate ServicesOwned(s: State) {
    forall p | p in s.services :: Excused(s.lostServices, p) || exists k :: Answers(s, k, p)
  }

  ghost predicate SlicesOwned(s: State) {
    forall p | p in s.slices :: Excused(s.lostSlices, p) || exists k :: AnswersSlice(s, k, p)
  }

  /** The calls of a creating reconcile write only to the places of the link it read. */
  predicate WritesWithin(todo: seq<Call>, spec: LinkSpec) {
    forall i | 0 <= i < |todo| ::
      match todo[i]
      case LookService(p, _) => p in ServicePlaces(spec)
      case WriteService(p, _, _) => p in ServicePlaces(spec)
      case LookSlice(p, _) => p == CpSlice(spec)
      case WriteSlice(p, _, _) => p == CpSlice(spec)
      case AddFinalizer => false
      case CleanupClient(_, _) => false
      case DeleteService(_) => false
      case DeleteSlice(_) => false
      case ReleaseFinalizer => false
      case _ => true
  }

  /** Since the link took its finalizer it has held it, or lost it to its site. */
  predicate Covered(s: State, k: string) {
    k in s.stripped || (k in s.links && s.links[k].finalizer)
  }

  ghost predicate CreatingFits(s: State, k: string, read: Link, todo: seq<Call>) {
    if |todo| > 0 && todo[0].AddFinalizer?
    then WritesWithin(todo[1..], read.spec) && read.rev < s.clock && (Unchanged(s, k, read) ==> s.links[k] == read)
    else WritesWithin(todo, read.spec) && Covered(s, k)
  }

  ghost predicate CleaningFits(s: State, k: string, read: Link, todo: seq<Call>) {
    && read.rev < s.clock && (Unchanged(s, k, read) ==> s.links[k] == read)
    && read.finalizer && exists n: nat :: n < 7 && todo == From(read.spec, n)
  }

  /** The cleanup calls from number `n` on. */
  function From(spec: LinkSpec, n: nat): seq<Call> {
    Drop(CleanupProgram(spec), n)
  }

  ghost predicate FlightFits(s: State, k: string, f: Flight) {
    match f
    case Creating(read, todo) => CreatingFits(s, k, read, todo)
    case Cleaning(read, todo) => CleaningFits(s, k, read, todo)
  }

  ghost predicate FlightsFit(s: State) {
    forall k | k in s.flights :: FlightFits(s, k, s.flights[k])
  }

  ghost predicate RevsFresh(s: State) {
    forall k | k in s.links :: s.links[k].rev < s.clock
  }

  ghost predicate StrippedBare(s: State) {
    forall k | k in s.stripped && k in s.links :: !s.links[k].finalizer
  }

  ghost predicate Invariant(s: State) {
    ServicesOwned(s) && SlicesOwned(s) && ExcusesReal(s) && FlightsFit(s) && RevsFresh(s) && StrippedBare(s)
  }

  // ----- frames -----

  /** Whoever answered still does, or what it answered for has been given up on. */
  ghost predicate KeepsAnswers(s: State, t: State) {
    && LostKept(s, t)
    && (forall k, p :: Answers(s, k, p) ==> Answers(t, k, p) || Excused(t.lostServices, p) || p !in t.services)
    && (forall k, p :: AnswersSlice(s, k, p) ==> AnswersSlice(t, k, p) || Excused(t.lostSlices, p) || p !in t.slices)
  }

  lemma OwnedStays(s: State, t: State)
    requires ServicesOwned(s) && SlicesOwned(s) && KeepsAnswers(s, t)
    requires forall p | p in t.services :: p in s.services || Excused(t.lostServices, p) || exists k :: Answers(t, k, p)
    requires forall p | p in t.slices :: p in s.slices || Excused(t.lostSlices, p) || exists k :: AnswersSlice(t, k, p)
    ensures ServicesOwned(t) && SlicesOwned(t)
  {
    forall p | p in t.services && !Excused(t.lostServices, p) ensures exists k :: Answers(t, k, p) {
      if p in s.services {
        var k :| Answers(s, k, p);
        assert Answers(t, k, p);
      }
    }
    forall p | p in t.slices && !Excused(t.lostSlices, p) ensures exists k :: AnswersSlice(t, k, p) {
      if p in s.slices {
        var k :| AnswersSlice(s, k, p);
        assert AnswersSlice(t, k, p);
      }
    }
  }

  /** Flights of other links are not disturbed when their own links are not. */
  ghost predicate OthersKept(s: State, t: State, k: string) {
    && s.clock <= t.clock && LostKept(s, t) && (forall j | j != k :: j in s.stripped <==> j in t.stripped)
    && (forall j | j != k :: (j in s.flights <==> j in t.flights) && (j in s.flights ==> t.flights[j] == s.flights[j]))
    && (forall j | j != k :: (j in s.links <==> j in t.links) && (j in s.links ==> t.links[j] == s.links[j]))
  }

  lemma FlightsOfOthers(s: State, t: State, k: string)
    requires FlightsFit(s) && RevsFresh(s) && StrippedBare(s) && OthersKept(s, t, k)
    requires k in t.flights ==> FlightFits(t, k, t.flights[k])
    requires k in t.links ==> t.links[k].rev < t.clock && (k in t.stripped ==> !t.links[k].finalizer)
    ensures FlightsFit(t) && RevsFresh(t) && StrippedBare(t)
  {
    forall j | j in t.flights ensures FlightFits(t, j, t.flights[j]) {
      if j != k { assert FlightFits(s, j, s.flights[j]); }
    }
  }

  // ----- cleanup calls -----

  lemma CleanupSteps(spec: LinkSpec, n: nat)
    requires n < 7
    ensures From(spec, n) != [] && From(spec, n)[1..] == From(spec, n + 1)
    ensures From(spec, n)[0] == CleanupProgram(spec)[n]
    ensures From(spec, n + 1) == [] <==> n == 6
  {
  }

  lemma CleanupDeletes(spec: LinkSpec, n: nat)
    requires n <= 7
    ensures Deletes(From(spec, n)) ==
      (if n <= 1 then {CpUpf(spec)} else {}) + (if n <= 3 then {CpAmf(spec)} else {})
        + (if n <= 5 then {EdgeAmf(spec)} else {})
    ensures SliceDeletes(From(spec, n)) == if n <= 2 then {CpSlice(spec)} else {}
  {
    var p := CleanupProgram(spec);
    var t := From(spec, n);
    assert |t| == 7 - n && forall i | 0 <= i < |t| :: t[i] == p[i + n];
    if n <= 1 { assert t[1 - n] == p[1]; }
    if n <= 2 { assert t[2 - n] == p[2]; }
    if n <= 3 { assert t[3 - n] == p[3]; }
    if n <= 5 { assert t[5 - n] == p[5]; }
  }

  /** Links other than `k` keep answering. */
  lemma OthersAnswer(s: State, t: State, k: string)
    requires OthersKept(s, t, k)
    requires forall p | Answers(s, k, p) :: Answers(t, k, p) || Excused(t.lostServices, p) || p !in t.services
    requires forall p | AnswersSlice(s, k, p) :: AnswersSlice(t, k, p) || Excused(t.lostSlices, p) || p !in t.slices
    ensures KeepsAnswers(s, t)
  {
    forall j, p | Answers(s, j, p) ensures Answers(t, j, p) || Excused(t.lostServices, p) || p !in t.services {
      if j != k { assert Answers(t, j, p); }
    }
    forall j, p | AnswersSlice(s, j, p) ensures AnswersSlice(t, j, p) || Excused(t.lostSlices, p) || p !in t.slices {
      if j != k { assert AnswersSlice(t, j, p); }
    }
  }

  /** Putting the pieces together for a step that concerns link `k` and adds no remote object. */
  lemma StepOn(s: State, t: State, k: string)
    requires Invariant(s) && OthersKept(s, t, k)
    requires t.services.Keys <= s.services.Keys && t.slices.Keys <= s.slices.Keys
    requires forall p | Answers(s, k, p) :: Answers(t, k, p) || Excused(t.lostServices, p) || p !in t.services
    requires forall p | AnswersSlice(s, k, p) :: AnswersSlice(t, k, p) || Excused(t.lostSlices, p) || p !in t.slices
    requires k in t.flights ==> FlightFits(t, k, t.flights[k])
    requires k in t.links ==> t.links[k].rev < t.clock && (k in t.stripped ==> !t.links[k].finalizer)
    requires ExcusesReal(t)
    ensures Invariant(t)
  {
    OthersAnswer(s, t, k);
    OwnedStays(s, t);
    FlightsOfOthers(s, t, k);
  }

  lemma ProgramDeletes(l: Link)
    ensures CleanupProgram(l.spec) == From(l.spec, 0)
    ensures Deletes(CleanupProgram(l.spec)) == ServicePlaces(l.spec)
    ensures SliceDeletes(CleanupProgram(l.spec)) == SlicePlaces(l.spec)
  {
    CleanupDeletes(l.spec, 0);
    assert CleanupProgram(l.spec)[0..] == CleanupProgram(l.spec);
  }

  lemma StartCleaning(s: State, k: string, l: Link)
    requires Invariant(s) && k in s.links && k !in s.flights && s.links[k] == l && l.deleting && l.finalizer
    ensures Invariant(Started(s, k))
  {
    var t := Started(s, k);
    ProgramDeletes(l);
    assert CleaningFits(t, k, l, From(l.spec, 0));
    StepOn(s, t, k);
  }

  lemma TailFits(spec: LinkSpec)
    ensures WritesWithin(CreateTail(spec), spec) && !CreateTail(spec)[0].AddFinalizer?
    ensures ([AddFinalizer] + CreateTail(spec))[1..] == CreateTail(spec)
  {
  }

  lemma StartCreating(s: State, k: string, l: Link)
    requires Invariant(s) && k in s.links && k !in s.flights && s.links[k] == l && !l.deleting
    ensures Invariant(Started(s, k))
  {
    var t := Started(s, k);
    TailFits(l.spec);
    assert CreatingFits(t, k, l, CreateProgram(l));
    StepOn(s, t, k);
  }

  lemma BeginKeeps(s: State, k: string)
    requires Invariant(s)
    ensures Invariant(Started(s, k))
  {
    if k in s.links && k !in s.flights {
      var l := s.links[k];
      if l.deleting && l.finalizer { StartCleaning(s, k, l); }
      if !l.deleting { StartCreating(s, k, l); }
    }
  }

  lemma AbortKeeps(s: State, k: string)
    requires Invariant(s)
    ensures Invariant(Abort(s, k))
  {
    StepOn(s, Abort(s, k), k);
  }

  /** A creating reconcile goes on with calls that fit its link. */
  lemma ContinueCreating(s: State, k: string, f: Flight, rest: seq<Call>)
    requires Invariant(s) && k in s.flights && s.flights[k].Creating? && f.Creating?
    requires CreatingFits(s, k, f.read, rest)
    ensures Invariant(Continue(s, k, f, rest))
  {
    StepOn(s, Continue(s, k, f, rest), k);
  }

  lemma ApplyKeeps(s: State, k: string, f: Flight, p: Place, content: Content)
    requires Invariant(s) && k in s.flights && s.flights[k] == f && f.Creating?
    requires CreatingFits(s, k, f.read, f.todo) && p in ServicePlaces(f.read.spec) && Covered(s, k)
    ensures Invariant(Applied(s, k, p, content))
  {
    var t := Applied(s, k, p, content);
    assert Excused(t.lostServices, p) || Answers(t, k, p) by {
      if k !in s.links {
        assert Excuse(k, p, Stripped) in t.lostServices;
      } else if p !in ServicePlaces(s.links[k].spec) {
        assert Excuse(k, p, Repointed) in t.lostServices;
      }
    }
    LostGrows(s, t);
    OthersAnswer(s, t, k);
    OwnedStays(s, t);
    FlightsOfOthers(s, t, k);
  }

  lemma SliceKeeps(s: State, k: string, f: Flight, p: Place, ip: string)
    requires Invariant(s) && k in s.flights && s.flights[k] == f && f.Creating?
    requires CreatingFits(s, k, f.read, f.todo) && p == CpSlice(f.read.spec) && Covered(s, k)
    ensures Invariant(Sliced(s, k, p, ip))
  {
    var t := Sliced(s, k, p, ip);
    assert Excused(t.lostSlices, p) || AnswersSlice(t, k, p) by {
      if k !in s.links {
        assert Excuse(k, p, Stripped) in t.lostSlices;
      } else if p != CpSlice(s.links[k].spec) {
        assert Excuse(k, p, Repointed) in t.lostSlices;
      }
    }
    LostGrows(s, t);
    OthersAnswer(s, t, k);
    OwnedStays(s, t);
    FlightsOfOthers(s, t, k);
  }

  lemma LostGrows(s: State, t: State)
    requires s.lostServices <= t.lostServices && s.lostSlices <= t.lostSlices
    ensures LostKept(s, t)
  {
  }

  lemma AddFinalizerKeeps(s: State, k: string, f: Flight, rest: seq<Call>, o: Outcome)
    requires Invariant(s) && k in s.flights && s.flights[k] == f && f.Creating?
    requires f.todo == [AddFinalizer] + rest && CreatingFits(s, k, f.read, f.todo)
    ensures Invariant(PerformCall(s, k, f, AddFinalizer, rest, o))
  {
    assert f.todo[1..] == rest;
    AbortKeeps(s, k);
    if Unchanged(s, k, f.read) && o.Effective() {
      GuardKeeps(s, k, f, rest, Continue(Guard(s, k), k, f, rest));
      GuardKeeps(s, k, f, rest, Abort(Guard(s, k), k));
    }
  }

  /** The link has its finalizer again, and the reconcile goes on or gives up. */
  lemma GuardKeeps(s: State, k: string, f: Flight, rest: seq<Call>, t: State)
    requires Invariant(s) && k in s.flights && s.flights[k] == f && f.Creating? && Unchanged(s, k, f.read)
    requires f.todo == [AddFinalizer] + rest && CreatingFits(s, k, f.read, f.todo)
    requires t == Continue(Guard(s, k), k, f, rest) || t == Abort(Guard(s, k), k)
    ensures Invariant(t)
  {
    assert f.todo[1..] == rest;
    assert s.links[k].spec == f.read.spec;
    assert k in t.links && t.links[k].finalizer && t.links[k].spec == f.read.spec;
    assert t.lostServices == s.lostServices && t.lostSlices == s.lostSlices;
    StepOn(s, t, k);
  }

  /** More calls to the places of the link, in front of the others. */
  lemma MoreCalls(more: seq<Call>, rest: seq<Call>, spec: LinkSpec)
    requires WritesWithin(more, spec) && WritesWithin(rest, spec) && |more| > 0
    ensures WritesWithin(more + rest, spec) && !(more + rest)[0].AddFinalizer?
  {
    var all := more + rest;
    forall i | 0 <= i < |all| ensures all[i] == if i < |more| then more[i] else rest[i - |more|] {
    }
  }

  lemma LookKeeps(s: State, k: string, f: Flight, more: seq<Call>, rest: seq<Call>)
    requires Invariant(s) && k in s.flights && s.flights[k] == f && f.Creating? && CreatingFits(s, k, f.read, rest)
    requires |more| > 0 && WritesWithin(more, f.read.spec) && Covered(s, k)
    requires WritesWithin(rest, f.read.spec)
    ensures Invariant(Continue(s, k, f, more + rest))
  {
    MoreCalls(more, rest, f.read.spec);
    ContinueCreating(s, k, f, more + rest);
  }

  lemma ServiceCallKeeps(s: State, k: string, f: Flight, call: Call, rest: seq<Call>, o: Outcome)
    requires Invariant(s) && k in s.flights && s.flights[k] == f && f.Creating? && f.todo == [call] + rest
    requires CreatingFits(s, k, f.read, f.todo) && CreatingFits(s, k, f.read, rest) && WritesWithin(rest, f.read.spec)
    requires Covered(s, k)
    requires (call.LookService? || call.WriteService?) && call.place in ServicePlaces(f.read.spec)
    ensures Invariant(PerformCall(s, k, f, call, rest, o))
  {
    AbortKeeps(s, k);
    if call.LookService? {
      LookKeeps(s, k, f, [WriteService(call.place, call.content, o.Done? && call.place !in s.services)], rest);
    } else {
      ContinueCreating(s, k, f, rest);
      ApplyKeeps(s, k, f, call.place, call.content);
      var t := Applied(s, k, call.place, call.content);
      ContinueCreating(t, k, f, rest);
      AbortKeeps(t, k);
    }
  }

  lemma SliceCallKeeps(s: State, k: string, f: Flight, call: Call, rest: seq<Call>, o: Outcome)
    requires Invariant(s) && k in s.flights && s.flights[k] == f && f.Creating? && f.todo == [call] + rest
    requires CreatingFits(s, k, f.read, f.todo) && CreatingFits(s, k, f.read, rest) && WritesWithin(rest, f.read.spec)
    requires Covered(s, k)
    requires (call.LookSlice? || call.WriteSlice?) && call.place == CpSlice(f.read.spec)
    ensures Invariant(PerformCall(s, k, f, call, rest, o))
  {
    AbortKeeps(s, k);
    if call.LookSlice? {
      LookKeeps(s, k, f, [WriteSlice(call.place, call.ip, o.Done? && call.place !in s.slices)], rest);
    } else {
      ContinueCreating(s, k, f, rest);
      SliceKeeps(s, k, f, call.place, call.ip);
      var t := Sliced(s, k, call.place, call.ip);
      ContinueCreating(t, k, f, rest);
      AbortKeeps(t, k);
    }
  }

  lemma ReadPodKeeps(s: State, k: string, f: Flight, rest: seq<Call>, o: Outcome)
    requires Invariant(s) && k in s.flights && s.flights[k] == f && f.Creating? && CreatingFits(s, k, f.read, rest)
    requires Covered(s, k) && WritesWithin(rest, f.read.spec)
    ensures Invariant(PerformCall(s, k, f, ReadPod, rest, o))
  {
    ContinueCreating(s, k, f, rest);
    var edge := ClusterOf(f.read.spec.edge);
    if edge in s.pods { LookKeeps(s, k, f, Endpoint(f.read.spec, s.pods[edge]), rest); }
  }

  lemma CreatingKeeps(s: State, k: string, f: Flight, o: Outcome)
    requires Invariant(s) && k in s.flights && s.flights[k] == f && f.Creating? && |f.todo| > 0
    ensures Invariant(PerformCall(s, k, f, f.todo[0], f.todo[1..], o))
  {
    var call, rest := f.todo[0], f.todo[1..];
    assert FlightFits(s, k, f);
    assert f.todo == [call] + rest;
    if call.AddFinalizer? {
      AddFinalizerKeeps(s, k, f, rest, o);
    } else {
      RestFits(s, k, f);
      AbortKeeps(s, k);
      if call.LookService? || call.WriteService? {
        ServiceCallKeeps(s, k, f, call, rest, o);
      } else if call.LookSlice? || call.WriteSlice? {
        SliceCallKeeps(s, k, f, call, rest, o);
      } else if call.ReadPod? {
        ReadPodKeeps(s, k, f, rest, o);
      } else {
        ContinueCreating(s, k, f, rest);
      }
    }
  }

  lemma RestFits(s: State, k: string, f: Flight)
    requires f.Creating? && |f.todo| > 0 && !f.todo[0].AddFinalizer? && CreatingFits(s, k, f.read, f.todo)
    ensures CreatingFits(s, k, f.read, f.todo[1..]) && WritesWithin(f.todo[1..], f.read.spec)
  {
    var rest := f.todo[1..];
    forall i | 0 <= i < |rest| ensures rest[i] == f.todo[i + 1] && !rest[i].AddFinalizer? {
    }
  }

  /** A cleanup moves on: each object it stops answering for is gone or given up on. */
  lemma ContinueCleaning(s: State, t: State, k: string, f: Flight, m: nat)
    requires Invariant(s) && k in s.flights && s.flights[k] == f && f.Cleaning? && m <= 6
    requires t.links == s.links && t.flights == s.flights && t.clock == s.clock && t.stripped == s.stripped
    requires LostKept(s, t) && ExcusesReal(t)
    requires t.services.Keys <= s.services.Keys && t.slices.Keys <= s.slices.Keys
    requires forall p | p in Deletes(f.todo) && p !in Deletes(From(f.read.spec, m)) ::
      Excused(t.lostServices, p) || p !in t.services
    requires forall p | p in SliceDeletes(f.todo) && p !in SliceDeletes(From(f.read.spec, m)) ::
      Excused(t.lostSlices, p) || p !in t.slices
    ensures Invariant(Continue(t, k, f, From(f.read.spec, m)))
  {
    var u := Continue(t, k, f, From(f.read.spec, m));
    CleanupSteps(f.read.spec, m);
    assert FlightFits(s, k, f);
    assert CleaningFits(u, k, f.read, From(f.read.spec, m));
    StepOn(s, u, k);
  }

  lemma ReleaseKeeps(s: State, k: string, f: Flight, o: Outcome)
    requires Invariant(s) && k in s.flights && s.flights[k] == f && f.Cleaning? && f.todo == From(f.read.spec, 6)
    ensures Invariant(PerformCall(s, k, f, ReleaseFinalizer, [], o))
  {
    AnswersNothing(s, k, f);
    AbortKeeps(s, k);
    if Unchanged(s, k, f.read) && o.Effective() {
      StepOn(s, Abort(StoreLink(s, k, s.links[k].(finalizer := false)), k), k);
    }
  }

  lemma AnswersNothing(s: State, k: string, f: Flight)
    requires k in s.flights && s.flights[k] == f && f.Cleaning? && f.todo == From(f.read.spec, 6)
    ensures forall p :: !Answers(s, k, p) && !AnswersSlice(s, k, p)
  {
    CleanupDeletes(f.read.spec, 6);
  }

  lemma SkippedCalls(spec: LinkSpec, n: nat)
    requires n == 0 || n == 4
    ensures var skips := if n == 0 then 3 else 1;
      && Drop(From(spec, n + 1), skips) == From(spec, n + 1 + skips)
      && Deletes(From(spec, n)) - Deletes(From(spec, n + 1 + skips)) <= Deletes(Take(From(spec, n + 1), skips))
      && SliceDeletes(From(spec, n)) - SliceDeletes(From(spec, n + 1 + skips))
         <= SliceDeletes(Take(From(spec, n + 1), skips))
  {
    var skips := if n == 0 then 3 else 1;
    CleanupDeletes(spec, n);
    CleanupDeletes(spec, n + 1 + skips);
    var taken := Take(From(spec, n + 1), skips);
    var p := CleanupProgram(spec);
    assert |taken| == skips && forall i | 0 <= i < skips :: taken[i] == p[n + 1 + i];
    if n == 0 {
      assert taken[0] == p[1] && taken[1] == p[2] && taken[2] == p[3];
    } else {
      assert taken[0] == p[5];
    }
  }

  /** The kind of cleanup call number `n`, and the deletions it settles. */
  lemma NthCall(spec: LinkSpec, n: nat)
    requires n < 6
    ensures var call := CleanupProgram(spec)[n];
      if n == 0 || n == 4 then call.CleanupClient? && call.skips == (if n == 0 then 3 else 1)
      else if n == 2 then call == DeleteSlice(CpSlice(spec))
      else call == DeleteService(if n == 1 then CpUpf(spec) else if n == 3 then CpAmf(spec) else EdgeAmf(spec))
    ensures var call := CleanupProgram(spec)[n];
      && Deletes(From(spec, n)) <= Deletes(From(spec, n + 1)) + (if call.DeleteService? then {call.place} else {})
      && SliceDeletes(From(spec, n)) <= SliceDeletes(From(spec, n + 1))
         + (if call.DeleteSlice? then {call.place} else {})
  {
    CleanupDeletes(spec, n);
    CleanupDeletes(spec, n + 1);
  }

  lemma SkipKeeps(s: State, k: string, f: Flight, n: nat, call: Call, rest: seq<Call>, m: nat, o: Outcome)
    requires Invariant(s) && k in s.flights && s.flights[k] == f && f.Cleaning? && call.CleanupClient? && n < m <= 6
    requires f.todo == From(f.read.spec, n) && rest == From(f.read.spec, n + 1)
      && Drop(rest, call.skips) == From(f.read.spec, m)
    requires Deletes(f.todo) <= Deletes(rest) && SliceDeletes(f.todo) <= SliceDeletes(rest)
    requires Deletes(f.todo) - Deletes(From(f.read.spec, m)) <= Deletes(Take(rest, call.skips))
    requires SliceDeletes(f.todo) - SliceDeletes(From(f.read.spec, m)) <= SliceDeletes(Take(rest, call.skips))
    ensures Invariant(PerformCall(s, k, f, call, rest, o))
  {
    ContinueCleaning(s, s, k, f, n + 1);
    var skipped := Take(rest, call.skips);
    var t := s.(lostServices := s.lostServices + Blamed(k, Deletes(skipped), s.services.Keys, Cleanup),
                lostSlices := s.lostSlices + Blamed(k, SliceDeletes(skipped), s.slices.Keys, Cleanup));
    LostGrows(s, t);
    forall p | p in Deletes(skipped) && p in t.services ensures Excused(t.lostServices, p) {
      assert Excuse(k, p, Cleanup) in t.lostServices;
    }
    forall p | p in SliceDeletes(skipped) && p in t.slices ensures Excused(t.lostSlices, p) {
      assert Excuse(k, p, Cleanup) in t.lostSlices;
    }
    ContinueCleaning(s, t, k, f, m);
  }

  lemma DeleteKeeps(s: State, k: string, f: Flight, n: nat, call: Call, rest: seq<Call>, o: Outcome)
    requires Invariant(s) && k in s.flights && s.flights[k] == f && f.Cleaning?
      && (call.DeleteService? || call.DeleteSlice?)
    requires n < 6 && f.todo == From(f.read.spec, n) && rest == From(f.read.spec, n + 1)
    requires Deletes(f.todo) <= Deletes(rest) + (if call.DeleteService? then {call.place} else {})
    requires SliceDeletes(f.todo) <= SliceDeletes(rest) + (if call.DeleteSlice? then {call.place} else {})
    ensures Invariant(PerformCall(s, k, f, call, rest, o))
  {
    DeleteSettles(s, k, call, o, Deletes(f.todo), Deletes(rest), SliceDeletes(f.todo), SliceDeletes(rest));
    ContinueCleaning(s, AfterDelete(s, k, call, o), k, f, n + 1);
    DeleteIs(s, k, f, call, rest, o);
  }

  lemma DeleteIs(s: State, k: string, f: Flight, call: Call, rest: seq<Call>, o: Outcome)
    requires call.DeleteService? || call.DeleteSlice?
    ensures PerformCall(s, k, f, call, rest, o) == Continue(AfterDelete(s, k, call, o), k, f, rest)
  {
  }

  lemma DeleteSettles(s: State, k: string, call: Call, o: Outcome, d: set<Place>, d': set<Place>, e: set<Place>,
                      e': set<Place>)
    requires (call.DeleteService? || call.DeleteSlice?) && ExcusesReal(s)
    requires d <= d' + (if call.DeleteService? then {call.place} else {})
    requires e <= e' + (if call.DeleteSlice? then {call.place} else {})
    ensures var t := AfterDelete(s, k, call, o);
      && t.links == s.links && t.flights == s.flights && t.clock == s.clock && t.stripped == s.stripped
      && LostKept(s, t) && ExcusesReal(t)
      && t.services.Keys <= s.services.Keys && t.slices.Keys <= s.slices.Keys
      && (forall p | p in d && p !in d' :: Excused(t.lostServices, p) || p !in t.services)
      && (forall p | p in e && p !in e' :: Excused(t.lostSlices, p) || p !in t.slices)
  {
  }

  /** The remote state after one deletion. */
  function AfterDelete(s: State, k: string, call: Call, o: Outcome): State
    requires call.DeleteService? || call.DeleteSlice?
  {
    var p := call.place;
    if call.DeleteService? then
      if o.Effective() then s.(services := Without(s.services, p), lostServices := Forgiven(s.lostServices, p))
      else s.(lostServices := s.lostServices + Blamed(k, {p}, s.services.Keys, Cleanup))
    else
      if o.Effective() then s.(slices := Without(s.slices, p), lostSlices := Forgiven(s.lostSlices, p))
      else s.(lostSlices := s.lostSlices + Blamed(k, {p}, s.slices.Keys, Cleanup))
  }

  lemma CleaningCallKeeps(s: State, k: string, f: Flight, n: nat, o: Outcome)
    requires Invariant(s) && k in s.flights && s.flights[k] == f && f.Cleaning? && n < 6
      && f.todo == From(f.read.spec, n)
    ensures Invariant(PerformCall(s, k, f, f.todo[0], From(f.read.spec, n + 1), o))
  {
    var call, rest := f.todo[0], From(f.read.spec, n + 1);
    CleanupSteps(f.read.spec, n);
    NthCall(f.read.spec, n);
    if n == 0 || n == 4 {
      SkippedCalls(f.read.spec, n);
      SkipKeeps(s, k, f, n, call, rest, n + 1 + call.skips, o);
    } else {
      DeleteKeeps(s, k, f, n, call, rest, o);
    }
  }

  lemma CleaningKeeps(s: State, k: string, f: Flight, o: Outcome)
    requires Invariant(s) && k in s.flights && s.flights[k] == f && f.Cleaning? && |f.todo| > 0
    ensures Invariant(PerformCall(s, k, f, f.todo[0], f.todo[1..], o))
  {
    assert FlightFits(s, k, f);
    var n: nat :| n < 7 && f.todo == From(f.read.spec, n);
    CleanupSteps(f.read.spec, n);
    if n == 6 { ReleaseKeeps(s, k, f, o); } else { CleaningCallKeeps(s, k, f, n, o); }
  }

  lemma CrashKeeps(s: State)
    requires Invariant(s)
    ensures Invariant(s.(flights := map[]))
  {
    var t := s.(flights := map[]);
    assert forall k, p :: Answers(s, k, p) ==> Answers(t, k, p);
    assert forall k, p :: AnswersSlice(s, k, p) ==> AnswersSlice(t, k, p);
    OwnedStays(s, t);
  }

  /** When a link goes, what it answered for is excused. */
  lemma StoredAnswers(s: State, k: string, l: Link)
    requires k in s.links && l.spec == s.links[k].spec && (l.finalizer || !s.links[k].finalizer || k in s.stripped)
    ensures var t := StoreLink(s, k, l);
      && (forall p | Answers(s, k, p) :: Answers(t, k, p) || Excused(t.lostServices, p) || p !in t.services)
      && (forall p | AnswersSlice(s, k, p) :: AnswersSlice(t, k, p) || Excused(t.lostSlices, p) || p !in t.slices)
  {
    var t := StoreLink(s, k, l);
    if k !in t.links && k in s.stripped {
      forall p | p in ServicePlaces(l.spec) && p in t.services ensures Excused(t.lostServices, p) {
        assert Excuse(k, p, Stripped) in t.lostServices;
      }
      forall p | p in SlicePlaces(l.spec) && p in t.slices ensures Excused(t.lostSlices, p) {
        assert Excuse(k, p, Stripped) in t.lostSlices;
      }
    }
  }

  lemma StoredFacts(s: State, k: string, l: Link)
    requires ExcusesReal(s) && RevsFresh(s)
    ensures var t := StoreLink(s, k, l);
      ExcusesReal(t) && LostKept(s, t) && OthersKept(s, t, k) && (k in t.links ==> t.links[k].rev < t.clock)
  {
    LostGrows(s, StoreLink(s, k, l));
  }

  lemma StoreLinkKeeps(s: State, k: string, l: Link)
    requires Invariant(s) && k in s.links && l.finalizer == s.links[k].finalizer && l.spec == s.links[k].spec
    ensures Invariant(StoreLink(s, k, l))
  {
    var t := StoreLink(s, k, l);
    if k in s.flights { assert FlightFits(s, k, s.flights[k]); }
    StoredFacts(s, k, l);
    StoredAnswers(s, k, l);
    StepOn(s, t, k);
  }

  // ----- links pointed elsewhere -----

  lemma RepointedFacts(s: State, k: string, spec: LinkSpec, l: Link)
    requires k in s.links && ExcusesReal(s) && RevsFresh(s)
    ensures var t := Repoint(s, k, spec, l);
      ExcusesReal(t) && LostKept(s, t) && OthersKept(s, t, k) && (k in t.links ==> t.links[k].rev < t.clock)
  {
    StoredFacts(s, k, l);
    LostGrows(s, Repoint(s, k, spec, l));
  }

  lemma RepointedAnswers(s: State, k: string, spec: LinkSpec, l: Link)
    requires k in s.links && l.spec == spec && (l.finalizer || !s.links[k].finalizer || k in s.stripped)
    ensures var t := Repoint(s, k, spec, l);
      forall p | Answers(s, k, p) :: Answers(t, k, p) || Excused(t.lostServices, p) || p !in t.services
  {
    var t, was := Repoint(s, k, spec, l), s.links[k].spec;
    forall p | Answers(s, k, p) && p in t.services ensures Answers(t, k, p) || Excused(t.lostServices, p) {
      if p !in ServicePlaces(spec) {
        var left := Blamed(k, ServicePlaces(was) - ServicePlaces(spec), s.services.Keys, Repointed);
        assert Excuse(k, p, Repointed) in left && left <= t.lostServices;
      } else if k !in t.links && k in s.stripped {
        assert Excuse(k, p, Stripped) in t.lostServices;
      }
    }
  }

  lemma RepointedSlices(s: State, k: string, spec: LinkSpec, l: Link)
    requires k in s.links && l.spec == spec && (l.finalizer || !s.links[k].finalizer || k in s.stripped)
    ensures var t := Repoint(s, k, spec, l);
      forall p | AnswersSlice(s, k, p) :: AnswersSlice(t, k, p) || Excused(t.lostSlices, p) || p !in t.slices
  {
    var t, was := Repoint(s, k, spec, l), s.links[k].spec;
    forall p | AnswersSlice(s, k, p) && p in t.slices ensures AnswersSlice(t, k, p) || Excused(t.lostSlices, p) {
      if p != CpSlice(spec) {
        assert Excuse(k, p, Repointed) in Blamed(k, SlicePlaces(was) - SlicePlaces(spec), s.slices.Keys, Repointed);
        assert Excuse(k, p, Repointed) in t.lostSlices;
      } else if k !in t.links && k in s.stripped {
        assert Excuse(k, p, Stripped) in t.lostSlices;
      }
    }
  }

  lemma RepointedFlight(s: State, k: string, spec: LinkSpec, l: Link, f: Flight)
    requires RevsFresh(s) && k in s.links && k in s.flights && s.flights[k] == f && FlightFits(s, k, f)
    requires s.links[k].finalizer ==> l.finalizer || k in s.stripped
    ensures FlightFits(Repoint(s, k, spec, l), k, f)
  {
  }

  lemma EditKeeps(s: State, k: string, spec: LinkSpec)
    requires Invariant(s) && k in s.links
    ensures Invariant(Step(s, EditLink(k, spec)))
  {
    var l := s.links[k].(spec := spec);
    RepointKeeps(s, s, k, spec, l);
  }

  /** Pointing a link elsewhere, after its site may have taken the finalizer off. */
  lemma RepointKeeps(s: State, u: State, k: string, spec: LinkSpec, l: Link)
    requires Invariant(s) && k in s.links && l.spec == spec && (k in u.stripped ==> !l.finalizer)
    requires u == s.(stripped := u.stripped) && s.stripped <= u.stripped <= s.stripped + {k}
    requires s.links[k].finalizer ==> l.finalizer || k in u.stripped
    ensures Invariant(Repoint(u, k, spec, l))
  {
    var t := Repoint(u, k, spec, l);
    assert forall p :: (Answers(s, k, p) ==> Answers(u, k, p)) && (AnswersSlice(s, k, p) ==> AnswersSlice(u, k, p));
    if k in s.flights {
      assert FlightFits(s, k, s.flights[k]);
      assert FlightFits(u, k, u.flights[k]);
      RepointedFlight(u, k, spec, l, u.flights[k]);
    }
    RepointedFacts(u, k, spec, l);
    RepointedAnswers(u, k, spec, l);
    RepointedSlices(u, k, spec, l);
    StepOn(s, t, k);
  }

  lemma SiteAppliedKeeps(s: State, k: string, spec: LinkSpec)
    requires Invariant(s)
    ensures Invariant(SiteApplied(s, k, spec))
  {
    if k !in s.links {
      CreatedKeeps(s, k, false, spec);
    } else {
      var l := s.links[k].(finalizer := false, others := false, spec := spec);
      if l != s.links[k] {
        RepointKeeps(s, s.(stripped := if s.links[k].finalizer then s.stripped + {k} else s.stripped), k, spec, l);
      }
    }
  }

  lemma CreatedKeeps(s: State, k: string, others: bool, spec: LinkSpec)
    requires Invariant(s) && k !in s.links
    ensures Invariant(Step(s, CreateLink(k, others, spec)))
  {
    if k in s.flights { assert FlightFits(s, k, s.flights[k]); }
    StepOn(s, Step(s, CreateLink(k, others, spec)), k);
  }

  lemma StepKeeps(s: State, e: Event)
    requires Invariant(s)
    ensures Invariant(Step(s, e))
  {
    match e
    case Begin(k) => BeginKeeps(s, k);
    case CallEnd(k, o) =>
      if k in s.flights {
        if s.flights[k].todo == [] { AbortKeeps(s, k); }
        else if s.flights[k].Creating? { CreatingKeeps(s, k, s.flights[k], o); }
        else { CleaningKeeps(s, k, s.flights[k], o); }
      }
    case Crash => CrashKeeps(s);
    case CreateLink(k, others, spec) => if k !in s.links { CreatedKeeps(s, k, others, spec); }
    case DeleteLink(k) => if k in s.links { StoreLinkKeeps(s, k, s.links[k].(deleting := true)); }
    case EditLink(k, spec) => if k in s.links { EditKeeps(s, k, spec); }
    case SiteApplies(k, spec) => SiteAppliedKeeps(s, k, spec);
    case SiteRepeats(k) => if k in s.links { SiteAppliedKeeps(s, k, s.links[k].spec); }
    case OthersRelease(k) => if k in s.links { StoreLinkKeeps(s, k, s.links[k].(others := false)); }
    case SetPod(c, ip) => SamePicture(s, Step(s, e));
    case ForeignDelete(p) => SamePicture(s, Step(s, e));
  }

  lemma SamePicture(s: State, t: State)
    requires Invariant(s)
    requires t.links == s.links && t.flights == s.flights && t.clock == s.clock && t.stripped == s.stripped
    requires LostKept(s, t) && ExcusesReal(t)
    requires t.services.Keys <= s.services.Keys && t.slices.Keys <= s.slices.Keys
    ensures Invariant(t)
  {
    assert forall k, p :: Answers(s, k, p) ==> Answers(t, k, p);
    assert forall k, p :: AnswersSlice(s, k, p) ==> AnswersSlice(t, k, p);
    OwnedStays(s, t);
    forall k | k in t.flights ensures FlightFits(t, k, t.flights[k]) {
      assert FlightFits(s, k, s.flights[k]);
    }
  }

  lemma {:induction false} RunKeeps(s: State, events: seq<Event>)
    requires Invariant(s)
    ensures Invariant(Run(s, events))
    decreases |events|
  {
    if |events| > 0 {
      StepKeeps(s, events[0]);
      RunKeeps(Step(s, events[0]), events[1..]);
    }
  }

  // ----- why something is there -----

  ghost predicate WantedService(s: State, p: Place) {
    exists k :: k in s.links && p in ServicePlaces(s.links[k].spec)
  }

  ghost predicate WantedSlice(s: State, p: Place) {
    exists k :: k in s.links && p == CpSlice(s.links[k].spec)
  }

  lemma ExcusesSplit(lost: set<Excuse>, p: Place)
    ensures Excused(lost, p) <==> GivenUp(lost, p) || Orphaned(lost, p)
  {
  }

  /**
   * In every reachable state, with a crash possible between any two calls, a remote object is there for one of four
   * reasons: a link that wants it holds its finalizer; a link that wants it has been rewritten by its site since it
   * took its finalizer; some link gave up on it; or some link went while so rewritten. Nothing absent is excused.
   */
  lemma NothingUnexplained(events: seq<Event>, p: Place)
    ensures var s := Run(EMPTY, events);
      && (p in s.services ==>
            ((exists k :: Answerable(s, k) && p in ServicePlaces(s.links[k].spec))
             || GivenUp(s.lostServices, p) || Orphaned(s.lostServices, p)))
      && (p in s.slices ==>
            ((exists k :: Answerable(s, k) && p == CpSlice(s.links[k].spec))
             || GivenUp(s.lostSlices, p) || Orphaned(s.lostSlices, p)))
      && (Excused(s.lostServices, p) ==> p in s.services) && (Excused(s.lostSlices, p) ==> p in s.slices)
  {
    RunKeeps(EMPTY, events);
    var s := Run(EMPTY, events);
    ExcusesSplit(s.lostServices, p);
    ExcusesSplit(s.lostSlices, p);
    if p in s.services && !Excused(s.lostServices, p) {
      var k :| Answers(s, k, p);
    }
    if p in s.slices && !Excused(s.lostSlices, p) {
      var k :| AnswersSlice(s, k, p);
    }
  }

  /** What no site has rewritten is not there without a finalizer that guards it, unless some link gave up on it. */
  lemma NothingOrphaned(events: seq<Event>, p: Place)
    requires forall e | e in events :: !e.SiteApplies? && !e.SiteRepeats?
    ensures var s := Run(EMPTY, events);
      && (p in s.services ==>
            (GivenUp(s.lostServices, p)
             || exists k :: k in s.links && s.links[k].finalizer && p in ServicePlaces(s.links[k].spec)))
      && (p in s.slices ==>
            (GivenUp(s.lostSlices, p)
             || exists k :: k in s.links && s.links[k].finalizer && p == CpSlice(s.links[k].spec)))
  {
    RunKeeps(EMPTY, events);
    NeverRewritten(EMPTY, events);
    NothingUnexplained(events, p);
  }

  ghost predicate NoneStripped(s: State) {
    s.stripped == {} && (forall x | x in s.lostServices :: x.cause != Stripped)
    && forall x | x in s.lostSlices :: x.cause != Stripped
  }

  lemma {:induction false} NeverRewritten(s: State, events: seq<Event>)
    requires Invariant(s) && NoneStripped(s) && forall e | e in events :: !e.SiteApplies? && !e.SiteRepeats?
    ensures NoneStripped(Run(s, events))
    decreases |events|
  {
    if |events| > 0 {
      assert events[0] in events && forall e | e in events[1..] :: e in events;
      StepKeeps(s, events[0]);
      StaysUnstripped(s, events[0]);
      NeverRewritten(Step(s, events[0]), events[1..]);
    }
  }

  lemma StaysUnstripped(s: State, e: Event)
    requires Invariant(s) && NoneStripped(s) && !e.SiteApplies? && !e.SiteRepeats?
    ensures NoneStripped(Step(s, e))
  {
    if e.CallEnd? && e.key in s.flights && |s.flights[e.key].todo| > 0 {
      var f := s.flights[e.key];
      assert FlightFits(s, e.key, f);
      if f.Creating? && !f.todo[0].AddFinalizer? { assert Covered(s, e.key); }
      HeadFits(s, e.key, f);
      CallUnstripped(s, e.key, f, f.todo[0], f.todo[1..], e.outcome);
    } else {
      EventUnstripped(s, e);
    }
  }

  lemma StoredUnstripped(s: State, k: string, l: Link)
    requires NoneStripped(s)
    ensures NoneStripped(StoreLink(s, k, l))
  {
  }

  lemma EventUnstripped(s: State, e: Event)
    requires NoneStripped(s) && !e.SiteApplies? && !e.SiteRepeats?
    requires !(e.CallEnd? && e.key in s.flights && |s.flights[e.key].todo| > 0)
    ensures NoneStripped(Step(s, e))
  {
    match e
    case DeleteLink(k) => if k in s.links { StoredUnstripped(s, k, s.links[k].(deleting := true)); }
    case OthersRelease(k) => if k in s.links { StoredUnstripped(s, k, s.links[k].(others := false)); }
    case EditLink(k, spec) => if k in s.links { StoredUnstripped(s, k, s.links[k].(spec := spec)); }
    case _ =>
  }

  lemma CallUnstripped(s: State, k: string, f: Flight, call: Call, rest: seq<Call>, o: Outcome)
    requires NoneStripped(s) && ((call.WriteService? || call.WriteSlice?) ==> k in s.links)
    ensures NoneStripped(PerformCall(s, k, f, call, rest, o))
  {
    if call.WriteService? || call.WriteSlice? {
      WriteUnstripped(s, k, f, call, rest, o);
    }
  }

  lemma WriteUnstripped(s: State, k: string, f: Flight, call: Call, rest: seq<Call>, o: Outcome)
    requires NoneStripped(s) && (call.WriteService? || call.WriteSlice?) && k in s.links
    ensures NoneStripped(PerformCall(s, k, f, call, rest, o))
  {
  }

  // ----- giving up -----

  ghost predicate NewExcuse(s: State, t: State, x: Excuse) {
    (x in t.lostServices && x !in s.lostServices) || (x in t.lostSlices && x !in s.lostSlices)
  }

  /** The calls whose outcome can leave something behind. */
  predicate Blames(call: Call) {
    call.CleanupClient? || call.DeleteService? || call.DeleteSlice? || call.WriteService? || call.WriteSlice?
  }

  lemma QuietCalls(s: State, k: string, f: Flight, call: Call, rest: seq<Call>, o: Outcome)
    requires !Blames(call) && !call.AddFinalizer? && !call.ReleaseFinalizer?
    ensures var t := PerformCall(s, k, f, call, rest, o);
      t.lostServices == s.lostServices && t.lostSlices == s.lostSlices
  {
  }

  lemma FinalizerCalls(s: State, k: string, f: Flight, call: Call, rest: seq<Call>, o: Outcome, x: Excuse)
    requires NewExcuse(s, PerformCall(s, k, f, call, rest, o), x) && (call.AddFinalizer? || call.ReleaseFinalizer?)
    ensures x.cause == Stripped
  {
  }

  lemma CleanupCalls(s: State, k: string, f: Flight, call: Call, rest: seq<Call>, o: Outcome, x: Excuse)
    requires NewExcuse(s, PerformCall(s, k, f, call, rest, o), x)
    requires call.CleanupClient? || call.DeleteService? || call.DeleteSlice?
    ensures x.link == k && x.cause == Cleanup && !o.Done?
  {
  }

  lemma ServiceBlames(s: State, k: string, f: Flight, call: Call, rest: seq<Call>, o: Outcome, x: Excuse)
    requires NewExcuse(s, PerformCall(s, k, f, call, rest, o), x) && call.WriteService?
    ensures x in Astray(s, k, call.place, ServicePlaces)
  {
  }

  lemma SliceBlames(s: State, k: string, f: Flight, call: Call, rest: seq<Call>, o: Outcome, x: Excuse)
    requires NewExcuse(s, PerformCall(s, k, f, call, rest, o), x) && call.WriteSlice?
    ensures x in Astray(s, k, call.place, SlicePlaces)
  {
  }

  lemma WriteCalls(s: State, k: string, f: Flight, call: Call, rest: seq<Call>, o: Outcome, x: Excuse)
    requires NewExcuse(s, PerformCall(s, k, f, call, rest, o), x) && (call.WriteService? || call.WriteSlice?)
    requires call.WriteService? ==> call.place in ServicePlaces(f.read.spec)
    requires call.WriteSlice? ==> call.place == CpSlice(f.read.spec)
    ensures x.link == k
    ensures if k in s.links then x.cause == Repointed && s.links[k].spec != f.read.spec else x.cause == Stripped
  {
    if call.WriteService? { ServiceBlames(s, k, f, call, rest, o, x); } else { SliceBlames(s, k, f, call, rest, o, x); }
  }

  /** A cleanup call of the link fails, or a reconcile from before the link was pointed elsewhere writes. */
  predicate GivesUp(s: State, e: Event, x: Excuse) {
    && e.CallEnd? && e.key == x.link && x.link in s.flights && |s.flights[x.link].todo| > 0
    && var f := s.flights[x.link];
       if x.cause == Cleanup then f.Cleaning? && !e.outcome.Done?
       else
         && f.Creating? && (f.todo[0].WriteService? || f.todo[0].WriteSlice?)
         && x.link in s.links && s.links[x.link].spec != f.read.spec
  }

  lemma CallGivesUp(s: State, e: Event, x: Excuse)
    requires Invariant(s) && e.CallEnd? && NewExcuse(s, Step(s, e), x) && x.cause != Stripped
    ensures GivesUp(s, e, x)
  {
    if e.key in s.flights && |s.flights[e.key].todo| > 0 {
      var k, f := e.key, s.flights[e.key];
      var call, rest := f.todo[0], f.todo[1..];
      assert FlightFits(s, k, f);
      HeadFits(s, k, f);
      if call.CleanupClient? || call.DeleteService? || call.DeleteSlice? {
        CleanupCalls(s, k, f, call, rest, e.outcome, x);
      } else if call.WriteService? || call.WriteSlice? {
        WriteCalls(s, k, f, call, rest, e.outcome, x);
      } else if call.AddFinalizer? || call.ReleaseFinalizer? {
        FinalizerCalls(s, k, f, call, rest, e.outcome, x);
      } else {
        QuietCalls(s, k, f, call, rest, e.outcome);
      }
    }
  }

  /** Which calls a flight can be at. */
  lemma HeadFits(s: State, k: string, f: Flight)
    requires FlightFits(s, k, f) && |f.todo| > 0
    ensures var call := f.todo[0];
      && ((call.CleanupClient? || call.DeleteService? || call.DeleteSlice?) ==> f.Cleaning?)
      && (call.WriteService? ==> f.Creating? && call.place in ServicePlaces(f.read.spec))
      && (call.WriteSlice? ==> f.Creating? && call.place == CpSlice(f.read.spec))
  {
    if f.Cleaning? {
      var n: nat :| n < 7 && f.todo == From(f.read.spec, n);
      CleanupSteps(f.read.spec, n);
      if n < 6 { NthCall(f.read.spec, n); }
    }
  }

  /**
   * A link gives up on something only when one of its cleanup calls ends without effect, when it is pointed
   * elsewhere, or when a reconcile that began before it was pointed elsewhere still writes there.
   */
  lemma GivenUpOnlyWhen(s: State, e: Event, x: Excuse)
    requires Invariant(s) && NewExcuse(s, Step(s, e), x) && x.cause != Stripped
    ensures GivesUp(s, e, x) || (x.cause == Repointed && (e.EditLink? || e.SiteApplies?) && e.key == x.link
                                 && x.link in s.links && s.links[x.link].spec != e.spec)
  {
    match e
    case CallEnd(_, _) => CallGivesUp(s, e, x);
    case EditLink(k, spec) => if k in s.links { RepointBlames(s, k, spec, s.links[k].(spec := spec), x); }
    case SiteApplies(k, spec) => SiteBlames(s, k, spec, x);
    case SiteRepeats(k) => if k in s.links { SiteBlames(s, k, s.links[k].spec, x); }
    case _ =>
  }

  lemma RepointBlames(s: State, k: string, spec: LinkSpec, l: Link, x: Excuse)
    requires k in s.links && NewExcuse(s, Repoint(s, k, spec, l), x) && x.cause != Stripped
    ensures x.cause == Repointed && x.link == k && s.links[k].spec != spec
  {
  }

  lemma SiteBlames(s: State, k: string, spec: LinkSpec, x: Excuse)
    requires NewExcuse(s, SiteApplied(s, k, spec), x) && x.cause != Stripped
    ensures k in s.links && x.cause == Repointed && x.link == k && s.links[k].spec != spec
  {
    if k in s.links {
      var l := s.links[k].(finalizer := false, others := false, spec := spec);
      var u := s.(stripped := if s.links[k].finalizer then s.stripped + {k} else s.stripped);
      if l != s.links[k] { RepointBlames(u, k, spec, l, x); }
    }
  }

  // ----- deletion never wedges -----

  ghost predicate Releasing(s: State, k: string) {
    k in s.flights && s.flights[k].Cleaning? && s.flights[k].todo == [ReleaseFinalizer]
      && Unchanged(s, k, s.flights[k].read)
  }

  function CallEnds(k: string, os: seq<Outcome>): seq<Event> {
    seq(|os|, i requires 0 <= i < |os| => CallEnd(k, os[i]))
  }

  /** Whatever its peers answer, a cleanup gets to its update within the calls it has left. */
  lemma {:induction false} CleanupReachesUpdate(s: State, k: string, os: seq<Outcome>, n: nat)
    requires k in s.flights && s.flights[k].Cleaning? && Unchanged(s, k, s.flights[k].read)
    requires n < 7 && s.flights[k].todo == From(s.flights[k].read.spec, n) && |os| >= 6 - n
    ensures exists m: nat :: m <= 6 - n && Releasing(Run(s, CallEnds(k, os[..m])), k)
                             && Run(s, CallEnds(k, os[..m])).links == s.links
    decreases 7 - n
  {
    var f := s.flights[k];
    CleanupSteps(f.read.spec, n);
    if n == 6 {
      assert CallEnds(k, os[..0]) == [];
      assert f.todo == [ReleaseFinalizer];
    } else {
      var t := Step(s, CallEnd(k, os[0]));
      var next: nat := AfterCall(s, k, os[0], n);
      CleanupReachesUpdate(t, k, os[1..], next);
      var m: nat :| m <= 6 - next && Releasing(Run(t, CallEnds(k, os[1..][..m])), k)
                    && Run(t, CallEnds(k, os[1..][..m])).links == t.links;
      FirstEnd(s, k, os, m);
    }
  }

  lemma FirstEnd(s: State, k: string, os: seq<Outcome>, m: nat)
    requires m < |os|
    ensures Run(s, CallEnds(k, os[..m + 1])) == Run(Step(s, CallEnd(k, os[0])), CallEnds(k, os[1..][..m]))
  {
    var events := CallEnds(k, os[..m + 1]);
    assert events[0] == CallEnd(k, os[0]);
    assert events[1..] == CallEnds(k, os[1..][..m]);
  }

  lemma AfterCall(s: State, k: string, o: Outcome, n: nat) returns (next: nat)
    requires k in s.flights && s.flights[k].Cleaning? && Unchanged(s, k, s.flights[k].read)
    requires n < 6 && s.flights[k].todo == From(s.flights[k].read.spec, n)
    ensures n < next <= 6
    ensures var t := Step(s, CallEnd(k, o));
      k in t.flights && t.flights[k] == Cleaning(s.flights[k].read, From(s.flights[k].read.spec, next))
        && t.links == s.links
  {
    var f := s.flights[k];
    var call, rest := f.todo[0], From(f.read.spec, n + 1);
    CleanupSteps(f.read.spec, n);
    NthCall(f.read.spec, n);
    if call.CleanupClient? { SkippedCalls(f.read.spec, n); }
    next := if call.CleanupClient? && !o.Done? then n + 1 + call.skips else n + 1;
    CleanupSteps(f.read.spec, next);
    ContinuesAt(s, k, f, call, rest, From(f.read.spec, next), o);
  }

  lemma ContinuesAt(s: State, k: string, f: Flight, call: Call, rest: seq<Call>, next: seq<Call>, o: Outcome)
    requires f.Cleaning? && (call.CleanupClient? || call.DeleteService? || call.DeleteSlice?) && next != []
    requires next == if call.CleanupClient? && !o.Done? then Drop(rest, call.skips) else rest
    ensures var t := PerformCall(s, k, f, call, rest, o);
      k in t.flights && t.flights[k] == Cleaning(f.read, next) && t.links == s.links
  {
  }

  /**
   * A deletion pass whose update goes through releases the finalizer, whatever the peers did: within six calls it
   * reaches the update, and the update then removes the object unless somebody else's finalizer holds it.
   */
  lemma DeletionNeverWedges(s: State, k: string, os: seq<Outcome>, update: Outcome)
    requires k in s.links && k !in s.flights && s.links[k].deleting && s.links[k].finalizer
    requires |os| >= 6 && update.Effective()
    ensures exists m: nat :: m <= 6 && var t := Run(Started(s, k), CallEnds(k, os[..m]));
      && Releasing(t, k)
      && var u := Step(t, CallEnd(k, update));
         if s.links[k].others then k in u.links && !u.links[k].finalizer else k !in u.links
  {
    var l := s.links[k];
    var b := Started(s, k);
    assert b.flights[k].todo == From(l.spec, 0);
    CleanupReachesUpdate(b, k, os, 0);
    var m: nat :| m <= 6 && Releasing(Run(b, CallEnds(k, os[..m])), k) && Run(b, CallEnds(k, os[..m])).links == b.links;
    ReleaseReleases(Run(b, CallEnds(k, os[..m])), k, update);
  }

  lemma ReleaseReleases(t: State, k: string, update: Outcome)
    requires Releasing(t, k) && update.Effective() && t.links[k].deleting
    ensures var u := Step(t, CallEnd(k, update));
      if t.links[k].others then k in u.links && !u.links[k].finalizer else k !in u.links
  {
  }
}

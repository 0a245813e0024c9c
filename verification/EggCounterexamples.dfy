/**
Three runs the program allows, each breaking a claim that holds on fewer steps, and the exact
condition under which the breaking step keeps the claim.
*/
module EggCounterexamples {
  import opened Wrappers
  import opened EggLifecycle
  import opened EggAccounting
  import opened EggService

  const NAMES: Model -> Unit := m => m

  const QUIET: LoadChoice := LoadChoice(false, {}, {}, false, true)

  ghost function Up(m: Model, phase: Phase, inflight: nat, used: nat): Egg {
    Egg(m, Llama, 0, phase, Some(m), inflight, 0, used, 0, false)
  }

  ghost function Waiting(m: Model, used: nat): Egg {
    Egg(m, Llama, 0, Loading, None, 0, 0, used, 0, false)
  }

  lemma NamesDistinct()
    ensures Distinct(NAMES)
  {
  }

  lemma ServiceLink(s: State<nat>, a: Action<nat>, t: State<nat>)
    requires WellTyped(s) && Enabled(s, a) && ServiceAction(s, a) && t == Apply(NAMES, s, a)
    ensures ServiceNext(NAMES, s, t) && Next(NAMES, s, t)
  {
  }

  lemma Link(s: State<nat>, a: Action<nat>, t: State<nat>)
    requires WellTyped(s) && Enabled(s, a) && t == Apply(NAMES, s, a)
    ensures Next(NAMES, s, t)
  {
  }

  /** A load into a table that holds no entry of that name and nothing of another kind. */
  lemma LoadLink(s: State<nat>, m: Model, i: nat, now: nat)
    requires WellTyped(s) && m !in s.procs && i !in s.eggs && AllOf(s, Llama)
    ensures var t := Placed(s, m, Llama, 0, i, QUIET, now);
      WellTyped(t) && AllOf(t, Llama) && ServiceNext(NAMES, s, t) && Next(NAMES, s, t)
  {
    var a := Action<nat>.Load(m, Llama, 0, i, QUIET, now);
    QuietLoadPlaces(s, m, i, now);
    assert Apply(NAMES, s, a) == LoadStep(s, m, Llama, 0, i, QUIET, now);
    ServiceLink(s, a, Placed(s, m, Llama, 0, i, QUIET, now));
  }

  lemma QuietLoadPlaces(s: State<nat>, m: Model, i: nat, now: nat)
    requires WellTyped(s) && m !in s.procs && i !in s.eggs && AllOf(s, Llama)
    ensures OtherKinds(s, m, Llama) == {} && Cleared(s, m) == s
    ensures LoadStep(s, m, Llama, 0, i, QUIET, now) == Placed(s, m, Llama, 0, i, QUIET, now)
  {
    EvictNobody(s);
    assert AfterKinds(s, m, Llama, QUIET, now) == s;
  }

  // ------------------------------------------------------------ up and serving one request

  ghost const LOADING_A: State<nat> := State(map["a" := 0], map[0 := Waiting("a", 1)], {}, map[], {0}, map[])
  ghost const UP_A: State<nat> := State(map["a" := 0], map[0 := Up("a", Ready, 0, 1)], {"a"}, map[], {}, map[])
  ghost const BUSY_A: State<nat> := State(map["a" := 0], map[0 := Up("a", Ready, 1, 1)], {"a"}, map[0 := ("a", 0)], {}, map[])

  ghost const START: seq<State<nat>> := [EMPTY, LOADING_A, UP_A, BUSY_A]

  lemma StartRuns()
    ensures ServiceRun(NAMES, START) && Run(NAMES, START)
  {
    LoadLink(EMPTY, "a", 0, 1);
    assert Placed(EMPTY, "a", Llama, 0, 0, QUIET, 1) == LOADING_A;
    UpALink();
    BusyALink();
  }

  lemma UpALink()
    ensures ServiceNext(NAMES, LOADING_A, UP_A) && Next(NAMES, LOADING_A, UP_A)
  {
    assert HatchStep(NAMES, LOADING_A, 0, HatchOutcome.Up) == UP_A;
    ServiceLink(LOADING_A, Hatch(0, HatchOutcome.Up), UP_A);
  }

  lemma BusyALink()
    ensures ServiceNext(NAMES, UP_A, BUSY_A) && Next(NAMES, UP_A, BUSY_A)
  {
    ServiceLink(UP_A, Acquire("a", 0, 1), BUSY_A);
  }

  ghost predicate Links(path: seq<State<nat>>) {
    forall k :: 0 <= k < |path| - 1 ==> Next(NAMES, path[k], path[k + 1])
  }

  ghost predicate ServiceLinks(path: seq<State<nat>>) {
    forall k :: 0 <= k < |path| - 1 ==> ServiceNext(NAMES, path[k], path[k + 1])
  }

  lemma RunGrows(path: seq<State<nat>>, more: seq<State<nat>>)
    requires Run(NAMES, path) && |more| > 0 && Next(NAMES, path[|path| - 1], more[0]) && Links(more)
    ensures Run(NAMES, path + more)
  {
    var all := path + more;
    forall k | 0 <= k < |all| - 1 ensures Next(NAMES, all[k], all[k + 1]) {
      if k >= |path| { assert all[k] == more[k - |path|] && all[k + 1] == more[k - |path| + 1]; }
    }
  }

  lemma ServiceRunGrows(path: seq<State<nat>>, more: seq<State<nat>>)
    requires ServiceRun(NAMES, path) && |more| > 0 && ServiceNext(NAMES, path[|path| - 1], more[0]) && ServiceLinks(more)
    ensures ServiceRun(NAMES, path + more)
  {
    var all := path + more;
    forall k | 0 <= k < |all| - 1 ensures ServiceNext(NAMES, all[k], all[k + 1]) {
      if k >= |path| { assert all[k] == more[k - |path|] && all[k + 1] == more[k - |path| + 1]; }
    }
  }

  // ------------------------------------------------------------ a healed egg is stopped

  ghost const COUNTING_A: State<nat> := State(map["a" := 0], map[0 := Up("a", IdleArmed, 0, 1)], {"a"}, map[], {}, map[])
  ghost const PICKED_A: State<nat> :=
    State(map["a" := 0], map[0 := Up("a", Draining, 0, 1)], {"a"}, map[], {}, map[(1, 0) := false])
  ghost const HEALED_A: State<nat> :=
    State(map["a" := 0], map[0 := Up("a", Ready, 0, 3).(served := 1)], {"a"}, map[], {}, map[(1, 0) := false])
  ghost const HEALED_BUSY: State<nat> :=
    State(map["a" := 0], map[0 := Up("a", Ready, 1, 3).(served := 1)], {"a"}, map[1 := ("a", 0)], {}, map[(1, 0) := false])

  ghost const HEAL: seq<State<nat>> := START + [COUNTING_A, PICKED_A, HEALED_A, HEALED_BUSY]

  lemma PickLink()
    ensures ServiceNext(NAMES, COUNTING_A, PICKED_A) && Next(NAMES, COUNTING_A, PICKED_A)
  {
    assert COUNTING_A.procs["a"] in Winners(COUNTING_A, 2);
    assert Winners(COUNTING_A, 2) == {0};
    ServiceLink(COUNTING_A, PickExpired(1, 2), PICKED_A);
  }

  lemma HealLink()
    ensures Next(NAMES, PICKED_A, HEALED_A)
  {
    EvictNobody(Cleared(PICKED_A, "a"));
    assert AfterKinds(PICKED_A, "a", Llama, QUIET, 3).procs == map[];
    Link(PICKED_A, Load("a", Llama, 0, 1, QUIET, 3), HEALED_A);
  }

  /** The idle sweep has picked `a` and not yet stopped it; a load of `a` puts it back in service and
      a request arrives; the pending stop now cuts that request off. */
  lemma HealedThenStopped()
    ensures Run(NAMES, HEAL)
    ensures Enabled(HEALED_BUSY, StopUnit(1, 0)) && Current(HEALED_BUSY, 0) && Serving(HEALED_BUSY, "a")
    ensures Accounted(HEALED_BUSY) && !JobsDraining(HEALED_BUSY)
  {
    StartRuns();
    CountLink();
    PickLink();
    HealLink();
    HealedBusyLink();
    RunGrows(START, [COUNTING_A, PICKED_A, HEALED_A, HEALED_BUSY]);
    HealedBusyServes();
  }

  lemma CountLink()
    ensures Next(NAMES, BUSY_A, COUNTING_A)
  {
    Link(BUSY_A, Release(0, 1), COUNTING_A);
  }

  lemma HealedBusyLink()
    ensures Next(NAMES, HEALED_A, HEALED_BUSY)
  {
    Link(HEALED_A, Acquire("a", 1, 3), HEALED_BUSY);
  }

  lemma HealedBusyServes()
    ensures WellTyped(HEALED_BUSY)
    ensures Enabled(HEALED_BUSY, StopUnit(1, 0)) && Current(HEALED_BUSY, 0) && Serving(HEALED_BUSY, "a")
    ensures Accounted(HEALED_BUSY) && !JobsDraining(HEALED_BUSY)
  {
    assert HEALED_BUSY.requests[1].1 == 0;
    assert RequestsOf(HEALED_BUSY, "a") == {1};
    assert HEALED_BUSY.jobs[(1, 0)] == false;
  }

  // ------------------------------------------------------------ a forced eviction loses count

  const EVICT_A: LoadChoice := LoadChoice(false, {"a"}, {}, false, true)

  ghost const EVICTED_A: State<nat> :=
    State(map["b" := 1], map[0 := Up("a", Ready, 1, 1).(spent := true), 1 := Waiting("b", 2)], {}, map[0 := ("a", 0)], {1}, map[])
  ghost const FAILED_B: State<nat> :=
    State(map[], map[0 := Up("a", Ready, 1, 1).(spent := true), 1 := Waiting("b", 2).(phase := Crashed)], {}, map[0 := ("a", 0)], {}, map[])
  ghost const LOADING_AGAIN: State<nat> := Placed(FAILED_B, "a", Llama, 0, 2, QUIET, 3)
  ghost const UP_AGAIN: State<nat> :=
    LOADING_AGAIN.(running := {"a"}, eggs := LOADING_AGAIN.eggs[2 := Up("a", Ready, 0, 3)], loads := {})
  ghost const BUSY_AGAIN: State<nat> :=
    UP_AGAIN.(eggs := UP_AGAIN.eggs[2 := Up("a", Ready, 1, 4)], requests := map[0 := ("a", 0), 1 := ("a", 2)])
  ghost const MISCOUNTED: State<nat> :=
    BUSY_AGAIN.(eggs := BUSY_AGAIN.eggs[2 := Up("a", IdleArmed, 0, 5)], requests := map[1 := ("a", 2)])

  ghost const EVICTION: seq<State<nat>> :=
    START + [EVICTED_A, FAILED_B, LOADING_AGAIN, UP_AGAIN, BUSY_AGAIN, MISCOUNTED]

  lemma EvictLink()
    ensures Next(NAMES, BUSY_A, EVICTED_A)
  {
    var a := Action<nat>.Load("b", Llama, 0, 1, EVICT_A, 2);
    assert Cleared(BUSY_A, "b") == BUSY_A;
    assert BUSY_A.eggs[BUSY_A.procs["a"]].Evictable(2);
    var s2 := EvictAll(BUSY_A, {"a"});
    assert s2.procs == map[];
    assert "a" in {"a"} && BUSY_A.eggs[BUSY_A.procs["a"]].unit == Some("a");
    assert s2.running == {};
    assert s2.eggs == map[0 := Up("a", Ready, 1, 1).(spent := true)];
    EvictNobody(s2);
    assert OtherKinds(s2, "b", Llama) == {};
    assert AfterKinds(BUSY_A, "b", Llama, EVICT_A, 2) == s2;
    assert Placed(s2, "b", Llama, 0, 1, EVICT_A, 2) == EVICTED_A;
    Link(BUSY_A, a, EVICTED_A);
  }

  lemma FailLink()
    ensures Next(NAMES, EVICTED_A, FAILED_B)
  {
    Link(EVICTED_A, Hatch(1, HatchFailed(true)), FAILED_B);
  }

  lemma UpLink()
    ensures Next(NAMES, LOADING_AGAIN, UP_AGAIN)
  {
    Link(LOADING_AGAIN, Hatch(2, HatchOutcome.Up), UP_AGAIN);
  }

  lemma MiscountLinks()
    ensures Next(NAMES, UP_AGAIN, BUSY_AGAIN) && Next(NAMES, BUSY_AGAIN, MISCOUNTED)
  {
    Link(UP_AGAIN, Acquire("a", 1, 4), BUSY_AGAIN);
    Link(BUSY_AGAIN, Release(0, 5), MISCOUNTED);
  }

  /** A forced eviction looks at what an egg has served, not at what it has in flight, so it may take
      a busy one; the interrupted request's release then counts down the next incarnation, which goes
      idle (and so up for collection) with a request outstanding. */
  lemma EvictionMiscounts()
    ensures Run(NAMES, EVICTION)
    ensures MISCOUNTED.procs["a"] == 2 && MISCOUNTED.eggs[2].phase.IdleArmed? && MISCOUNTED.eggs[2].inflight == 0
    ensures 1 in MISCOUNTED.requests && MISCOUNTED.requests[1] == ("a", 2) && Serving(MISCOUNTED, "a")
  {
    StartRuns();
    EvictLink();
    FailLink();
    LoadLink(FAILED_B, "a", 2, 3);
    UpLink();
    MiscountLinks();
    RunGrows(START, [EVICTED_A, FAILED_B, LOADING_AGAIN, UP_AGAIN, BUSY_AGAIN, MISCOUNTED]);
    assert MISCOUNTED.eggs[MISCOUNTED.requests[1].1].unit == Some("a");
  }

  // ------------------------------------------------------------ a delayed stop hits the successor

  ghost const LOADING_C: State<nat> := Placed(BUSY_A, "c", Llama, 0, 1, QUIET, 1)
  ghost const UP_C: State<nat> :=
    State(map["a" := 0, "c" := 1], map[0 := Up("a", Ready, 1, 1), 1 := Up("c", Ready, 0, 1)], {"a", "c"}, map[0 := ("a", 0)], {}, map[])
  ghost const COUNTING: State<nat> :=
    UP_C.(eggs := map[0 := Up("a", IdleArmed, 0, 2), 1 := Up("c", Ready, 0, 1)], requests := map[])
  ghost const PICKED: State<nat> :=
    COUNTING.(eggs := map[0 := Up("a", Draining, 0, 2), 1 := Up("c", Ready, 0, 1)], jobs := map[(1, 0) := false])
  ghost const DRAINED: State<nat> :=
    PICKED.(eggs := map[0 := Up("a", Draining, 0, 2), 1 := Up("c", Draining, 0, 1)])
  ghost const FOUND: State<nat> := DRAINED.(jobs := map[(1, 0) := false, (2, 0) := false])
  ghost const STOPPED: State<nat> :=
    FOUND.(eggs := map[0 := Up("a", Draining, 0, 2).(spent := true), 1 := Up("c", Draining, 0, 1)],
           running := {"c"}, jobs := map[(1, 0) := false, (2, 0) := true])
  ghost const REMOVED: State<nat> := STOPPED.(procs := map["c" := 1], jobs := map[(1, 0) := false])
  ghost const LOADING_NEXT: State<nat> := Placed(REMOVED, "a", Llama, 0, 2, QUIET, 4)
  ghost const UP_NEXT: State<nat> :=
    LOADING_NEXT.(running := {"c", "a"}, eggs := LOADING_NEXT.eggs[2 := Up("a", Ready, 0, 4)], loads := {})
  ghost const BUSY_NEXT: State<nat> :=
    UP_NEXT.(eggs := UP_NEXT.eggs[2 := Up("a", Ready, 1, 5)], requests := map[1 := ("a", 2)])

  ghost const BOTH_HELD: seq<State<nat>> := START + [LOADING_C, UP_C, COUNTING, PICKED, DRAINED, FOUND]
  ghost const DELAYED: seq<State<nat>> := BOTH_HELD + [STOPPED, REMOVED, LOADING_NEXT, UP_NEXT, BUSY_NEXT]

  lemma UpCLink()
    ensures ServiceNext(NAMES, LOADING_C, UP_C)
  {
    assert HatchStep(NAMES, LOADING_C, 1, HatchOutcome.Up) == UP_C;
    ServiceLink(LOADING_C, Hatch(1, HatchOutcome.Up), UP_C);
  }

  lemma CountingLink()
    ensures ServiceNext(NAMES, UP_C, COUNTING)
  {
    ServiceLink(UP_C, Release(0, 2), COUNTING);
  }

  lemma PickedLink()
    ensures ServiceNext(NAMES, COUNTING, PICKED)
  {
    OnlyAExpired();
    assert PickStep(COUNTING, 1, 3).eggs == PICKED.eggs;
    assert PickStep(COUNTING, 1, 3).jobs == PICKED.jobs;
    ServiceLink(COUNTING, PickExpired(1, 3), PICKED);
  }

  lemma OnlyAExpired()
    ensures WellTyped(COUNTING) && Winners(COUNTING, 3) == {0}
  {
    assert COUNTING.procs["a"] in Winners(COUNTING, 3);
    assert COUNTING.procs.Keys == {"a", "c"};
  }

  lemma DrainedLink()
    ensures ServiceNext(NAMES, PICKED, DRAINED)
  {
    ServiceLink(PICKED, RequestModel("b", Some("c"), 3), DRAINED);
  }

  lemma FoundLink()
    ensures ServiceNext(NAMES, DRAINED, FOUND)
  {
    ServiceLink(DRAINED, FindDraining(2, "a"), FOUND);
  }

  lemma StoppedLink()
    ensures ServiceNext(NAMES, FOUND, STOPPED)
  {
    ServiceLink(FOUND, StopUnit(2, 0), STOPPED);
  }

  lemma RemovedLink()
    ensures ServiceNext(NAMES, STOPPED, REMOVED)
  {
    ServiceLink(STOPPED, Finalize(2, 0), REMOVED);
  }

  lemma UpNextLink()
    ensures ServiceNext(NAMES, LOADING_NEXT, UP_NEXT)
  {
    ServiceLink(LOADING_NEXT, Hatch(2, HatchOutcome.Up), UP_NEXT);
  }

  lemma BusyNextLink()
    ensures ServiceNext(NAMES, UP_NEXT, BUSY_NEXT)
  {
    ServiceLink(UP_NEXT, Acquire("a", 1, 5), BUSY_NEXT);
  }

  /** Even a run that only serves, sweeps, drains and loads into free slots can cut a request off:
      the idle sweep holds `a`, a request for `b` drains `c` but collects `a` in its place, `a` is
      loaded again and serves, and the sweep's pending stop names the same unit. */
  lemma DelayedStopHitsSuccessor()
    ensures ServiceRun(NAMES, DELAYED) && DELAYED[|DELAYED| - 1] == BUSY_NEXT
    ensures WellTyped(BUSY_NEXT) && Enabled(BUSY_NEXT, StopUnit(1, 0))
    ensures Distinct(NAMES) && Replaced(BUSY_NEXT, 0) && Serving(BUSY_NEXT, "a")
  {
    NamesDistinct();
    BothHeldRuns();
    assert BOTH_HELD[|BOTH_HELD| - 1] == FOUND;
    TailLinks();
    ServiceRunGrows(BOTH_HELD, [STOPPED, REMOVED, LOADING_NEXT, UP_NEXT, BUSY_NEXT]);
    BusyNextServes();
  }

  lemma TailLinks()
    ensures ServiceNext(NAMES, FOUND, STOPPED)
    ensures ServiceLinks([STOPPED, REMOVED, LOADING_NEXT, UP_NEXT, BUSY_NEXT])
  {
    StoppedLink(); RemovedLink();
    LoadLink(REMOVED, "a", 2, 4);
    UpNextLink(); BusyNextLink();
    Chain(STOPPED, REMOVED, LOADING_NEXT, UP_NEXT, BUSY_NEXT);
  }

  lemma Chain(a: State<nat>, b: State<nat>, c: State<nat>, d: State<nat>, e: State<nat>)
    requires ServiceNext(NAMES, a, b) && ServiceNext(NAMES, b, c) && ServiceNext(NAMES, c, d) && ServiceNext(NAMES, d, e)
    ensures ServiceLinks([a, b, c, d, e])
  {
  }

  lemma LongerChain(a: State<nat>, b: State<nat>, c: State<nat>, d: State<nat>, e: State<nat>, f: State<nat>)
    requires ServiceNext(NAMES, a, b) && ServiceNext(NAMES, b, c) && ServiceNext(NAMES, c, d)
    requires ServiceNext(NAMES, d, e) && ServiceNext(NAMES, e, f)
    ensures ServiceLinks([a, b, c, d, e, f])
  {
  }

  lemma BothHeldRuns()
    ensures ServiceRun(NAMES, BOTH_HELD)
  {
    StartRuns();
    LoadLink(BUSY_A, "c", 1, 1);
    UpCLink(); CountingLink(); PickedLink(); DrainedLink(); FoundLink();
    LongerChain(LOADING_C, UP_C, COUNTING, PICKED, DRAINED, FOUND);
    ServiceRunGrows(START, [LOADING_C, UP_C, COUNTING, PICKED, DRAINED, FOUND]);
  }

  lemma BusyNextServes()
    ensures WellTyped(BUSY_NEXT) && Enabled(BUSY_NEXT, StopUnit(1, 0))
    ensures Replaced(BUSY_NEXT, 0) && Serving(BUSY_NEXT, "a")
  {
    assert BUSY_NEXT.requests[1].1 == 2;
  }
}

/**
Whole runs of the resident-model protocol.  A service run serves, sweeps, drains and loads without
forced evictions, self-healing or failure handling; a full run takes every action of the machine.
*/
module EggService {
  import opened Wrappers
  import opened EggLifecycle
  import opened EggAccounting
  import EggInvariant

  /** A load that finds its model absent and evicts nobody. */
  ghost predicate QuietLoad<I>(s: State<I>, a: Action<I>)
    requires WellTyped(s)
  {
    a.Load? && a.model !in s.procs && a.choice.overflow == {} && a.choice.memory == {}
    && OtherKinds(s, a.model, a.kind) * EvictableNames(s, a.now) == {}
  }

  /** A load that puts a draining egg back in service which no thread holds to stop it. */
  ghost predicate FreeHeal<I>(s: State<I>, a: Action<I>)
    requires WellTyped(s)
  {
    a.Load? && Heals(s, a.model) && forall k :: k in s.jobs ==> k.1 != s.procs[a.model]
  }

  /** A refused victim is put back while no other thread holds the entry of its name. */
  ghost predicate FreeRestore<I>(s: State<I>, a: Action<I>)
    requires WellTyped(s)
  {
    a.Restore? && a.egg in s.eggs &&
    (s.eggs[a.egg].model in s.procs ==>
       forall k :: k in s.jobs && k != (a.tid, a.egg) ==> k.1 != s.procs[s.eggs[a.egg].model])
  }

  ghost predicate ServiceAction<I>(s: State<I>, a: Action<I>)
    requires WellTyped(s)
  {
    || a.Acquire? || a.Release? || a.RequestModel? || a.Reuse? || a.MarkServed? || a.Pin?
    || a.PickExpired? || a.FindDraining? || a.StopUnit? || a.Finalize? || a.Hatch?
    || QuietLoad(s, a) || FreeHeal(s, a) || FreeRestore(s, a)
  }

  /** Whoever holds a stop job holds an egg that is draining. */
  ghost predicate JobsDraining<I>(s: State<I>) {
    forall k :: k in s.jobs ==> k.1 in s.eggs && s.eggs[k.1].phase.Draining?
  }

  ghost predicate ServiceInv<I>(names: Model -> Unit, s: State<I>) {
    Inv(names, s) && Accounted(s) && JobsDraining(s)
  }

  lemma QuietLoadStep<I>(s: State<I>, a: Action<I>)
    requires WellTyped(s) && QuietLoad(s, a)
    ensures var t := LoadStep(s, a.model, a.kind, a.threshold, a.egg, a.choice, a.now);
      t == s || t == Placed(s, a.model, a.kind, a.threshold, a.egg, a.choice, a.now)
  {
    EvictNobody(s);
    assert Cleared(s, a.model) == s;
    assert AfterKinds(s, a.model, a.kind, a.choice, a.now) == s;
  }

  lemma QuietLoadKeeps<I>(names: Model -> Unit, s: State<I>, a: Action<I>)
    requires ServiceInv(names, s) && Enabled(s, a) && QuietLoad(s, a)
    ensures BusyKept(s, Apply(names, s, a)) && JobsDraining(Apply(names, s, a))
  {
    QuietLoadStep(s, a);
  }

  lemma HatchServiceKeeps<I>(names: Model -> Unit, s: State<I>, i: I, o: HatchOutcome)
    requires ServiceInv(names, s) && i in s.loads
    ensures BusyKept(s, HatchStep(names, s, i, o)) && JobsDraining(HatchStep(names, s, i, o))
  {
    assert s.eggs[i].unit.None? && s.eggs[i].inflight == 0;
  }

  ghost predicate Touches<I>(a: Action<I>) {
    a.Reuse? || a.MarkServed? || a.Pin?
  }

  lemma AskedKeeps<I>(names: Model -> Unit, s: State<I>, a: Action<I>)
    requires ServiceInv(names, s) && Enabled(s, a) && a.RequestModel?
    ensures BusyKept(s, Apply(names, s, a)) && JobsDraining(Apply(names, s, a))
  {
    assert Apply(names, s, a).procs == s.procs && Apply(names, s, a).jobs == s.jobs;
  }

  lemma CountsKeeps<I>(names: Model -> Unit, s: State<I>, a: Action<I>)
    requires ServiceInv(names, s) && Enabled(s, a) && Counts(a)
    ensures BusyKept(s, Apply(names, s, a)) && JobsDraining(Apply(names, s, a))
  {
    assert Apply(names, s, a).procs == s.procs && Apply(names, s, a).jobs == s.jobs;
  }

  lemma TouchesKeeps<I>(names: Model -> Unit, s: State<I>, a: Action<I>)
    requires ServiceInv(names, s) && Enabled(s, a) && Touches(a)
    ensures BusyKept(s, Apply(names, s, a)) && JobsDraining(Apply(names, s, a))
  {
    assert Apply(names, s, a).procs == s.procs && Apply(names, s, a).jobs == s.jobs;
  }

  ghost predicate Stops<I>(a: Action<I>) {
    a.FindDraining? || a.StopUnit? || a.Finalize?
  }

  lemma StopsKeeps<I>(names: Model -> Unit, s: State<I>, a: Action<I>)
    requires ServiceInv(names, s) && Enabled(s, a) && Stops(a)
    ensures BusyKept(s, Apply(names, s, a)) && JobsDraining(Apply(names, s, a))
  {
  }

  lemma PickServiceKeeps<I>(names: Model -> Unit, s: State<I>, tid: nat, now: nat)
    requires ServiceInv(names, s) && FreeThread(s, tid)
    ensures BusyKept(s, PickStep(s, tid, now)) && JobsDraining(PickStep(s, tid, now))
  {
  }

  /** Self-healing leaves every held egg draining exactly when no thread holds the healed one. */
  lemma HealHolds<I>(names: Model -> Unit, s: State<I>, a: Action<I>)
    requires ServiceInv(names, s) && Enabled(s, a) && a.Load? && Heals(s, a.model)
    ensures JobsDraining(Apply(names, s, a)) <==> FreeHeal(s, a)
    ensures BusyKept(s, Apply(names, s, a))
  {
    var t := Apply(names, s, a);
    assert t.eggs[s.procs[a.model]].phase.Ready?;
    assert t.jobs == s.jobs && t.procs == s.procs;
  }

  /** Restoring a victim by name leaves every held egg draining exactly when no other thread holds
      the incarnation that now carries the name. */
  lemma RestoreHolds<I>(names: Model -> Unit, s: State<I>, a: Action<I>)
    requires ServiceInv(names, s) && Enabled(s, a) && a.Restore?
    ensures JobsDraining(Apply(names, s, a)) <==> FreeRestore(s, a)
    ensures BusyKept(s, Apply(names, s, a))
  {
    var t := Apply(names, s, a);
    assert t.jobs == s.jobs - {(a.tid, a.egg)} && t.procs == s.procs;
    var m := s.eggs[a.egg].model;
    if m in s.procs && !s.eggs[s.procs[m]].phase.Draining? {
      assert forall k :: k in s.jobs ==> s.eggs[k.1].phase.Draining?;
    }
  }

  /** One service step keeps exact accounts and stops no busy entry. */
  lemma ServiceStep<I>(names: Model -> Unit, s: State<I>, a: Action<I>)
    requires ServiceInv(names, s) && Enabled(s, a) && ServiceAction(s, a)
    ensures ServiceInv(names, Apply(names, s, a))
    ensures BusyKept(s, Apply(names, s, a))
  {
    EggInvariant.StepKeeps(names, s, a);
    StepAccounting(names, s, a);
    if Counts(a) { CountsKeeps(names, s, a); }
    else if a.RequestModel? { AskedKeeps(names, s, a); }
    else if Touches(a) { TouchesKeeps(names, s, a); }
    else if Stops(a) { StopsKeeps(names, s, a); }
    else if a.PickExpired? { PickServiceKeeps(names, s, a.tid, a.now); }
    else if a.Restore? { RestoreHolds(names, s, a); }
    else if FreeHeal(s, a) { HealHolds(names, s, a); }
    else if a.Load? { QuietLoadKeeps(names, s, a); }
    else { HatchServiceKeeps(names, s, a.egg, a.outcome); }
  }

  // ------------------------------------------------------------ which stop cuts a request off

  /** Some outstanding request is being served by the running unit `u`. */
  ghost predicate Serving<I>(s: State<I>, u: Unit) {
    u in s.running &&
    exists r :: r in s.requests && s.requests[r].1 in s.eggs && s.eggs[s.requests[r].1].unit == Some(u)
  }

  ghost predicate Distinct(names: Model -> Unit) {
    forall m, n :: names(m) == names(n) ==> m == n
  }

  /** The table has a different incarnation of the job's model, up and with requests in flight. */
  ghost predicate Replaced<I>(s: State<I>, i: I)
    requires WellTyped(s) && i in s.eggs
  {
    var m := s.eggs[i].model;
    m in s.procs && s.procs[m] != i && s.eggs[s.procs[m]].inflight > 0
    && s.eggs[s.procs[m]].unit == s.eggs[i].unit && s.eggs[i].unit.Some? && s.eggs[i].unit.value in s.running
  }

  /** The table's entry of the job's model is up as the unit the job names, with requests in flight. */
  ghost predicate BusyUnder<I>(s: State<I>, i: I)
    requires WellTyped(s) && i in s.eggs
  {
    var m := s.eggs[i].model;
    m in s.procs && s.eggs[s.procs[m]].inflight > 0
    && s.eggs[s.procs[m]].unit == s.eggs[i].unit && s.eggs[i].unit.Some? && s.eggs[i].unit.value in s.running
  }

  /** WHICH STOPS CUT A REQUEST OFF: with exact counters, collecting a held unit does so if and only if
      the entry that now carries the name is up as that unit and busy, be it the held incarnation
      itself (healed or restored under the job) or a successor. */
  lemma StopHits<I>(names: Model -> Unit, s: State<I>, tid: nat, i: I)
    requires Inv(names, s) && Accounted(s) && Distinct(names) && Enabled(s, StopUnit(tid, i))
    ensures Serving(s, s.eggs[i].unit.value) <==> BusyUnder(s, i)
  {
    var u := s.eggs[i].unit.value;
    var m := s.eggs[i].model;
    if Serving(s, u) {
      var r :| r in s.requests && s.requests[r].1 in s.eggs && s.eggs[s.requests[r].1].unit == Some(u);
      assert Holds(s, s.requests[r].0, s.requests[r].1);
      assert names(s.requests[r].0) == names(m);
      assert r in RequestsOf(s, m);
    }
    if BusyUnder(s, i) {
      assert |RequestsOf(s, m)| > 0;
      var r :| r in RequestsOf(s, m);
      assert Holds(s, s.requests[r].0, s.requests[r].1);
    }
  }

  /** THE ONE UNSAFE STOP: in a service run, collecting a held unit cuts a request off if and only if
      the table already carries a busy successor under the same name.  The identity test that guards
      the later removal (`cur == sp`) does not guard the stop itself. */
  lemma StopCutsOff<I>(names: Model -> Unit, s: State<I>, tid: nat, i: I)
    requires ServiceInv(names, s) && Distinct(names) && Enabled(s, StopUnit(tid, i))
    ensures Serving(s, s.eggs[i].unit.value) <==> Replaced(s, i)
    ensures Current(s, i) ==> !Serving(s, s.eggs[i].unit.value)
  {
    StopHits(names, s, tid, i);
    assert s.eggs[(tid, i).1].phase.Draining?;
  }

  /** Clearing the unit name before a hatch never stops anything: the name is free by then. */
  lemma HatchNameFree<I>(names: Model -> Unit, s: State<I>, i: I)
    requires Inv(names, s) && Distinct(names) && i in s.loads && Current(s, i)
    ensures names(s.eggs[i].model) !in s.running
  {
    var u := names(s.eggs[i].model);
    assert u in s.running ==> Owned(s, u);
  }

  // ------------------------------------------------------------ whole runs

  const EMPTY: State<nat> := State(map[], map[], {}, map[], {}, map[])

  ghost predicate Next(names: Model -> Unit, s: State<nat>, t: State<nat>) {
    WellTyped(s) && exists a: Action<nat> :: Enabled(s, a) && t == Apply(names, s, a)
  }

  ghost predicate ServiceNext(names: Model -> Unit, s: State<nat>, t: State<nat>) {
    WellTyped(s) && exists a: Action<nat> :: Enabled(s, a) && ServiceAction(s, a) && t == Apply(names, s, a)
  }

  ghost predicate Run(names: Model -> Unit, path: seq<State<nat>>) {
    && |path| > 0 && path[0] == EMPTY
    && forall k :: 0 <= k < |path| - 1 ==> Next(names, path[k], path[k + 1])
  }

  ghost predicate ServiceRun(names: Model -> Unit, path: seq<State<nat>>) {
    && |path| > 0 && path[0] == EMPTY
    && forall k :: 0 <= k < |path| - 1 ==> ServiceNext(names, path[k], path[k + 1])
  }

  /** In every state of every full run no unit runs without its table entry, and all units that run
      serve one kind. */
  lemma {:induction false} RunSafe(names: Model -> Unit, path: seq<State<nat>>, k: nat)
    requires Run(names, path) && k < |path|
    ensures Inv(names, path[k])
  {
    if k > 0 {
      RunSafe(names, path, k - 1);
      assert Next(names, path[k - 1], path[k - 1 + 1]);
      var a :| Enabled(path[k - 1], a) && path[k] == Apply(names, path[k - 1], a);
      EggInvariant.StepKeeps(names, path[k - 1], a);
    }
  }

  /** In every state of every service run the accounts are exact and held eggs are draining, so an
      egg that is counting down or draining has no outstanding request. */
  lemma {:induction false} ServiceRunExact(names: Model -> Unit, path: seq<State<nat>>, k: nat)
    requires ServiceRun(names, path) && k < |path|
    ensures ServiceInv(names, path[k])
  {
    if k > 0 {
      ServiceRunExact(names, path, k - 1);
      assert ServiceNext(names, path[k - 1], path[k - 1 + 1]);
      var a :| Enabled(path[k - 1], a) && ServiceAction(path[k - 1], a) && path[k] == Apply(names, path[k - 1], a);
      ServiceStep(names, path[k - 1], a);
    }
  }

  lemma IdleHasNoRequest<I>(names: Model -> Unit, s: State<I>, m: Model, r: nat)
    requires ServiceInv(names, s) && m in s.procs && r in s.requests
    requires s.eggs[s.procs[m]].phase.IdleArmed? || s.eggs[s.procs[m]].phase.Draining?
    ensures s.requests[r].1 != s.procs[m]
  {
    assert Holds(s, s.requests[r].0, s.requests[r].1);
    assert r in RequestsOf(s, s.requests[r].0);
  }
}

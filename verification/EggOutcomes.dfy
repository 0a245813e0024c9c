/**
What each step of the protocol comes to, told in the fields of the eggs and of the table, and which
steps can take a pinned or a busy egg out of service.
*/
module EggOutcomes {
  import opened Wrappers
  import opened EggLifecycle

  /** Beside the requests, nothing but egg `i` may differ. */
  ghost predicate OnlyEgg<I>(s: State<I>, t: State<I>, i: I) {
    && t.procs == s.procs && t.running == s.running && t.loads == s.loads && t.jobs == s.jobs
    && i in s.eggs && t.eggs.Keys == s.eggs.Keys && forall j :: j in s.eggs && j != i ==> t.eggs[j] == s.eggs[j]
  }

  // ------------------------------------------------------------ requests

  lemma AcquireOutcome<I>(names: Model -> Unit, s: State<I>, m: Model, req: nat, now: nat)
    requires WellTyped(s) && req !in s.requests
    ensures var t := Apply(names, s, Acquire(m, req, now));
      if m in s.procs && (s.eggs[s.procs[m]].phase == Ready || s.eggs[s.procs[m]].phase == IdleArmed) then
        var i, e := s.procs[m], s.eggs[s.procs[m]];
        && OnlyEgg(s, t, i) && t.requests == s.requests[req := (m, i)]
        && t.eggs[i] == Egg(e.model, e.kind, e.threshold, Ready, e.unit, e.inflight + 1, e.served, now, e.pinUntil, e.spent)
      else t == s
  {
  }

  lemma ReleaseOutcome<I>(names: Model -> Unit, s: State<I>, req: nat, now: nat)
    requires WellTyped(s) && req in s.requests
    ensures var t, m := Apply(names, s, Release(req, now)), s.requests[req].0;
      && t.requests == s.requests - {req}
      && if m in s.procs then
           var i, e := s.procs[m], s.eggs[s.procs[m]];
           var last := e.inflight <= 1 && e.phase == Ready;
           && OnlyEgg(s, t, i)
           && t.eggs[i] == Egg(e.model, e.kind, e.threshold, if last then IdleArmed else e.phase, e.unit,
                               if e.inflight == 0 then 0 else e.inflight - 1, e.served,
                               if last then now else e.lastUsed, e.pinUntil, e.spent)
         else t == s.(requests := t.requests)
  {
  }

  lemma RequestOutcome<I>(names: Model -> Unit, s: State<I>, m: Model, seen: Option<Model>, now: nat)
    requires WellTyped(s) && Enabled(s, RequestModel(m, seen, now))
    ensures var t := Apply(names, s, RequestModel(m, seen, now));
      if seen.None? then t == s && forall n :: n in s.procs ==> s.eggs[s.procs[n]].phase !in {Ready, IdleArmed}
      else
        var i, e := s.procs[seen.value], s.eggs[s.procs[seen.value]];
        && e.phase in {Ready, IdleArmed}
        && if seen.value == m then
             && OnlyEgg(s, t, i) && t.requests == s.requests
             && t.eggs[i] == Egg(e.model, e.kind, e.threshold, Ready, e.unit, e.inflight, e.served, now, e.pinUntil, e.spent)
           else if e.inflight > 0 || now < e.pinUntil then t == s
           else
             && OnlyEgg(s, t, i) && t.requests == s.requests
             && t.eggs[i] == Egg(e.model, e.kind, e.threshold, Draining, e.unit, 0, e.served, e.lastUsed, e.pinUntil, e.spent)
  {
  }

  lemma ReuseOutcome<I>(names: Model -> Unit, s: State<I>, m: Model, now: nat)
    requires WellTyped(s) && Enabled(s, Reuse(m, now))
    ensures var t, i, e := Apply(names, s, Reuse(m, now)), s.procs[m], s.eggs[s.procs[m]];
      && OnlyEgg(s, t, i) && t.requests == s.requests && e.phase in {Ready, IdleArmed}
      && t.eggs[i] == Egg(e.model, e.kind, e.threshold, Ready, e.unit, e.inflight, e.served + 1, now, e.pinUntil, e.spent)
  {
  }

  // ------------------------------------------------------------ sweep, stop, finalize, restore

  /** In the table, counting down, nothing in flight, unpinned, and last used longer ago than its own
      threshold. */
  ghost predicate IdleTooLong<I>(s: State<I>, i: I, now: nat) {
    && i in s.eggs && s.eggs[i].model in s.procs && s.procs[s.eggs[i].model] == i
    && s.eggs[i].phase == IdleArmed && s.eggs[i].inflight == 0 && s.eggs[i].pinUntil <= now
    && s.eggs[i].lastUsed > 0 && s.eggs[i].lastUsed + s.eggs[i].threshold < now
  }

  lemma PickOutcome<I>(names: Model -> Unit, s: State<I>, tid: nat, now: nat)
    requires WellTyped(s) && Enabled(s, PickExpired(tid, now))
    ensures var t := Apply(names, s, PickExpired(tid, now));
      && t.procs == s.procs && t.running == s.running && t.requests == s.requests && t.loads == s.loads
      && t.eggs.Keys == s.eggs.Keys
      && (forall i :: i in s.eggs ==>
            var e := s.eggs[i];
            t.eggs[i] == if IdleTooLong(s, i, now)
              then Egg(e.model, e.kind, e.threshold, Draining, e.unit, 0, e.served, e.lastUsed, e.pinUntil, e.spent) else e)
      && (forall k :: k in t.jobs <==> k in s.jobs || (k.0 == tid && IdleTooLong(s, k.1, now)))
      && (forall k :: k in t.jobs ==> t.jobs[k] == if k in s.jobs then s.jobs[k] else false)
  {
    var won := Winners(s, now);
    forall i ensures i in won <==> IdleTooLong(s, i, now) {
      if IdleTooLong(s, i, now) { assert s.eggs[s.procs[s.eggs[i].model]].Expired(now); }
    }
  }

  lemma StopOutcome<I>(names: Model -> Unit, s: State<I>, tid: nat, i: I)
    requires WellTyped(s) && Enabled(s, StopUnit(tid, i))
    ensures var t, e := Apply(names, s, StopUnit(tid, i)), s.eggs[i];
      && t.procs == s.procs && t.requests == s.requests && t.loads == s.loads && t.jobs == s.jobs[(tid, i) := true]
      && t.eggs == s.eggs[i := Egg(e.model, e.kind, e.threshold, e.phase, e.unit, e.inflight, e.served, e.lastUsed,
                                   e.pinUntil, e.spent || e.unit.Some?)]
      && t.running == if e.unit.Some? then s.running - {e.unit.value} else s.running
  {
    assert s.eggs == s.eggs[i := s.eggs[i]];
  }

  lemma FinalizeOutcome<I>(names: Model -> Unit, s: State<I>, tid: nat, i: I)
    requires WellTyped(s) && Enabled(s, Finalize(tid, i))
    ensures var t, m := Apply(names, s, Finalize(tid, i)), s.eggs[i].model;
      && t.eggs == s.eggs && t.running == s.running && t.requests == s.requests && t.loads == s.loads
      && t.jobs == s.jobs - {(tid, i)}
      && t.procs == if m in s.procs && s.procs[m] == i then s.procs - {m} else s.procs
  {
  }

  lemma RestoreOutcome<I>(names: Model -> Unit, s: State<I>, tid: nat, i: I, now: nat)
    requires WellTyped(s) && Enabled(s, Restore(tid, i, now))
    ensures var t, m := Apply(names, s, Restore(tid, i, now)), s.eggs[i].model;
      && t.procs == s.procs && t.running == s.running && t.requests == s.requests && t.loads == s.loads
      && t.jobs == s.jobs - {(tid, i)}
      && if m in s.procs && s.eggs[s.procs[m]].phase == Draining then
           var e := s.eggs[s.procs[m]];
           t.eggs == s.eggs[s.procs[m] := Egg(e.model, e.kind, e.threshold, Ready, e.unit, e.inflight, e.served, now,
                                              e.pinUntil, e.spent)]
         else t.eggs == s.eggs
  {
  }

  lemma FindOutcome<I>(names: Model -> Unit, s: State<I>, tid: nat, n: Model)
    requires WellTyped(s) && Enabled(s, FindDraining(tid, n))
    ensures var t := Apply(names, s, FindDraining(tid, n));
      s.eggs[s.procs[n]].phase == Draining && t == s.(jobs := s.jobs[(tid, s.procs[n]) := false])
  {
  }

  // ------------------------------------------------------------ forced eviction

  /** What every forced eviction asks: never asked for an answer yet, unpinned, not loading, named. */
  ghost predicate MayGo(e: Egg, now: nat) {
    e.served == 0 && e.pinUntil <= now && e.phase != Loading && e.model != ""
  }

  /** The entries of `gone` are out of the table and their units collected; nothing else differs. */
  ghost predicate Evicted<I>(s: State<I>, t: State<I>, gone: set<Model>)
    requires WellTyped(s)
  {
    && (forall m :: m in t.procs <==> m in s.procs && m !in gone)
    && (forall m :: m in t.procs ==> t.procs[m] == s.procs[m])
    && t.requests == s.requests && t.loads == s.loads && t.jobs == s.jobs && t.eggs.Keys == s.eggs.Keys
    && (forall i :: i in s.eggs ==>
          var e := s.eggs[i];
          var stopped := e.model in gone && e.model in s.procs && s.procs[e.model] == i && e.unit.Some?;
          t.eggs[i] == Egg(e.model, e.kind, e.threshold, e.phase, e.unit, e.inflight, e.served, e.lastUsed, e.pinUntil,
                           e.spent || stopped))
    && (forall u :: u in t.running <==>
          u in s.running && forall m :: m in gone && m in s.procs ==> s.eggs[s.procs[m]].unit != Some(u))
  }

  lemma EvictAllOutcome<I>(s: State<I>, gone: set<Model>)
    requires WellTyped(s)
    ensures Evicted(s, EvictAll(s, gone), gone)
  {
  }

  lemma UnloadOutcome<I>(names: Model -> Unit, s: State<I>, ns: set<Model>, now: nat)
    requires WellTyped(s) && Enabled(s, Unload(ns, now))
    ensures forall m :: m in ns ==> m in s.procs && MayGo(s.eggs[s.procs[m]], now)
    ensures Evicted(s, Apply(names, s, Unload(ns, now)), ns)
  {
    EvictAllOutcome(s, ns);
    forall m | m in ns ensures m in s.procs && MayGo(s.eggs[s.procs[m]], now) { assert m in EvictableNames(s, now); }
  }

  lemma UnloadAllOutcome<I>(names: Model -> Unit, s: State<I>, now: nat)
    requires WellTyped(s)
    ensures var t := Apply(names, s, UnloadAll(now));
      && Evicted(s, t, s.procs.Keys - t.procs.Keys)
      && forall m :: m in t.procs <==> m in s.procs && now < s.eggs[s.procs[m]].pinUntil
  {
    var gone := set m | m in s.procs && !s.eggs[s.procs[m]].Pinned(now);
    EvictAllOutcome(s, gone);
    assert gone == s.procs.Keys - Apply(names, s, UnloadAll(now)).procs.Keys;
  }

  lemma StopAllOutcome<I>(names: Model -> Unit, s: State<I>)
    requires WellTyped(s)
    ensures var t := Apply(names, s, StopAll);
      t.procs == map[] && Evicted(s, t, s.procs.Keys)
  {
    EvictAllOutcome(s, s.procs.Keys);
  }

  // ------------------------------------------------------------ one load

  lemma EvictTwice<I>(s: State<I>, a: set<Model>, b: set<Model>)
    requires WellTyped(s)
    ensures WellTyped(EvictAll(s, a)) && EvictAll(EvictAll(s, a), b) == EvictAll(s, a + b)
  {
    var t, u, v := EvictAll(s, a), EvictAll(EvictAll(s, a), b), EvictAll(s, a + b);
    assert u.procs == v.procs;
    assert UnitsOf(s, a) + UnitsOf(t, b) == UnitsOf(s, a + b);
    assert u.running == v.running;
    forall i | i in s.eggs ensures u.eggs[i] == v.eggs[i] {}
    assert u.eggs == v.eggs;
  }

  lemma ClearedIs<I>(s: State<I>, m: Model)
    requires WellTyped(s)
    ensures Cleared(s, m) == EvictAll(s, {m})
  {
    var t := EvictAll(s, {m});
    if m in s.procs {
      var i := s.procs[m];
      assert UnitsOf(s, {m}) == if s.eggs[i].unit.Some? then {s.eggs[i].unit.value} else {};
      assert t.eggs == EvictOne(s, m).eggs && t.procs == EvictOne(s, m).procs;
    } else {
      assert UnitsOf(s, {m}) == {};
      assert t.procs == s.procs && t.eggs == s.eggs;
    }
  }

  /** What may go and what is of another kind does not change for the entries that stay. */
  lemma StillMayGo<I>(s: State<I>, gone: set<Model>, model: Model, kind: Kind, now: nat)
    requires WellTyped(s)
    ensures EvictableNames(EvictAll(s, gone), now) == EvictableNames(s, now) - gone
    ensures OtherKinds(EvictAll(s, gone), model, kind) == OtherKinds(s, model, kind) - gone
  {
  }

  /** The residents of another kind that may go. */
  ghost function Foreign<I>(s: State<I>, model: Model, kind: Kind, now: nat): set<Model>
    requires WellTyped(s)
  {
    set m | m in s.procs && m != model && s.eggs[s.procs[m]].kind != kind && MayGo(s.eggs[s.procs[m]], now)
  }

  /** A resident of another kind that may not go, and is not made to go by the overflow either. */
  ghost predicate Blocked<I>(s: State<I>, model: Model, kind: Kind, overflow: set<Model>, now: nat)
    requires WellTyped(s)
  {
    exists m :: m in s.procs && m != model && m !in overflow && s.eggs[s.procs[m]].kind != kind && !MayGo(s.eggs[s.procs[m]], now)
  }

  lemma KindsPass<I>(s: State<I>, model: Model, kind: Kind, c: LoadChoice, now: nat)
    requires WellTyped(s)
    ensures AfterOverflow(s, model, c) == EvictAll(s, {model} + c.overflow)
    ensures AfterKinds(s, model, kind, c, now) == EvictAll(s, {model} + c.overflow + Foreign(s, model, kind, now))
  {
    var first := {model} + c.overflow;
    ClearedIs(s, model);
    EvictTwice(s, {model}, c.overflow);
    ForeignLeft(s, first, model, kind, now);
    var t := EvictAll(s, first);
    EvictTwice(s, first, OtherKinds(t, model, kind) * EvictableNames(t, now));
  }

  lemma ForeignLeft<I>(s: State<I>, first: set<Model>, model: Model, kind: Kind, now: nat)
    requires WellTyped(s) && model in first
    ensures var t := EvictAll(s, first);
      first + OtherKinds(t, model, kind) * EvictableNames(t, now) == first + Foreign(s, model, kind, now)
  {
    StillMayGo(s, first, model, kind, now);
  }

  lemma BlockedIs<I>(s: State<I>, model: Model, kind: Kind, overflow: set<Model>, now: nat)
    requires WellTyped(s)
    ensures var t := EvictAll(s, {model} + overflow + Foreign(s, model, kind, now));
      OtherKinds(t, model, kind) != {} <==> Blocked(s, model, kind, overflow, now)
  {
    var gone := {model} + overflow + Foreign(s, model, kind, now);
    StillMayGo(s, gone, model, kind, now);
    var left := OtherKinds(s, model, kind) - gone;
    if Blocked(s, model, kind, overflow, now) {
      var m :| m in s.procs && m != model && m !in overflow && s.eggs[s.procs[m]].kind != kind && !MayGo(s.eggs[s.procs[m]], now);
      assert m in left;
    }
    if left != {} {
      var m :| m in left;
      assert m in s.procs && m != model && m !in overflow && s.eggs[s.procs[m]].kind != kind && !MayGo(s.eggs[s.procs[m]], now);
    }
  }

  /** Who leaves the table in a load that does not heal. */
  ghost function Leaving<I>(s: State<I>, model: Model, kind: Kind, c: LoadChoice, now: nat): set<Model>
    requires WellTyped(s)
  {
    if c.refusedEarly then {model}
    else
      {model} + c.overflow + Foreign(s, model, kind, now)
      + if Blocked(s, model, kind, c.overflow, now) then {} else c.memory
  }

  lemma LoadLeaves<I>(s: State<I>, model: Model, kind: Kind, threshold: nat, i: I, c: LoadChoice, now: nat)
    requires WellTyped(s) && !Heals(s, model)
    ensures var left := EvictAll(s, Leaving(s, model, kind, c, now));
      LoadStep(s, model, kind, threshold, i, c, now) ==
      if c.refusedEarly || c.refusedLate || Blocked(s, model, kind, c.overflow, now) then left
      else Placed(left, model, kind, threshold, i, c, now)
  {
    if c.refusedEarly {
      ClearedIs(s, model);
    } else {
      KindsPass(s, model, kind, c, now);
      BlockedIs(s, model, kind, c.overflow, now);
      MemoryToo(s, {model} + c.overflow + Foreign(s, model, kind, now), c.memory);
    }
  }

  lemma MemoryToo<I>(s: State<I>, gone: set<Model>, memory: set<Model>)
    requires WellTyped(s)
    ensures EvictAll(EvictAll(s, gone), memory) == EvictAll(s, gone + memory) && gone + {} == gone
  {
    EvictTwice(s, gone, memory);
  }

  /** A LOAD: a draining entry of the name, up as a unit, is put back in service.  Otherwise it goes, and with
      it, unless the load is refused before, the overflow, every resident of another kind that may go and,
      unless one of another kind remains, what the memory plan names; all of these may go.  The new entry
      is placed exactly when nothing refuses and no resident of another kind remains. */
  lemma LoadOutcome<I>(names: Model -> Unit, s: State<I>, model: Model, kind: Kind, threshold: nat, i: I, c: LoadChoice, now: nat)
    requires WellTyped(s) && Enabled(s, Load(model, kind, threshold, i, c, now))
    ensures var t := Apply(names, s, Load(model, kind, threshold, i, c, now));
      if model in s.procs && s.eggs[s.procs[model]].phase == Draining && s.eggs[s.procs[model]].unit.Some? then
        var j, e := s.procs[model], s.eggs[s.procs[model]];
        && OnlyEgg(s, t, j) && t.requests == s.requests
        && t.eggs[j] == Egg(e.model, e.kind, e.threshold, Ready, e.unit, e.inflight, e.served + 1, now, e.pinUntil, e.spent)
      else
        var gone := Leaving(s, model, kind, c, now);
        && (forall m :: m in gone && m in s.procs ==> m == model || MayGo(s.eggs[s.procs[m]], now))
        && if c.refusedEarly || c.refusedLate || Blocked(s, model, kind, c.overflow, now) then Evicted(s, t, gone)
           else
             var left := EvictAll(s, gone);
             && Evicted(s, left, gone) && t.running == left.running && t.requests == s.requests && t.jobs == s.jobs
             && t.procs == left.procs[model := i]
             && t.eggs == left.eggs[i := Egg(model, kind, threshold, if c.portFree then Loading else Crashed, None, 0, 0,
                                             now, 0, false)]
             && t.loads == if c.portFree then s.loads + {i} else s.loads
  {
    if !Heals(s, model) {
      LoadLeaves(s, model, kind, threshold, i, c, now);
      EvictAllOutcome(s, Leaving(s, model, kind, c, now));
      PlansMayGo(s, model, kind, threshold, i, c, now);
    }
  }

  lemma PlansMayGo<I>(s: State<I>, model: Model, kind: Kind, threshold: nat, i: I, c: LoadChoice, now: nat)
    requires WellTyped(s) && Enabled(s, Load(model, kind, threshold, i, c, now))
    ensures forall m :: m in Leaving(s, model, kind, c, now) && m in s.procs ==> m == model || MayGo(s.eggs[s.procs[m]], now)
  {
    ClearedIs(s, model);
    PlanMayGo(s, {model}, c.overflow, now);
    KindsPass(s, model, kind, c, now);
    PlanMayGo(s, {model} + c.overflow + Foreign(s, model, kind, now), c.memory, now);
  }

  lemma PlanMayGo<I>(s: State<I>, gone: set<Model>, plan: set<Model>, now: nat)
    requires WellTyped(s) && plan <= EvictableNames(EvictAll(s, gone), now)
    ensures forall m :: m in plan ==> m in s.procs && MayGo(s.eggs[s.procs[m]], now)
  {
    StillMayGo(s, gone, "", Llama, now);
    forall m | m in plan ensures m in s.procs && MayGo(s.eggs[s.procs[m]], now) { assert m in EvictableNames(s, now); }
  }

  // ------------------------------------------------------------ the end of an expansion

  ghost predicate EggBecomes<I>(s: State<I>, t: State<I>, i: I, phase: Phase, unit: Option<Unit>, spent: bool) {
    i in s.eggs &&
    var e := s.eggs[i];
    t.eggs == s.eggs[i := Egg(e.model, e.kind, e.threshold, phase, unit, e.inflight, e.served, e.lastUsed, e.pinUntil, spent)]
  }

  /** THE END OF AN EXPANSION: a placeholder that was taken away meanwhile only ends its load.  A current one
      is served as its unit, or crashes: it keeps its entry only if the unit never became ready, and whatever
      was started is collected. */
  lemma HatchOutcomes<I>(names: Model -> Unit, s: State<I>, i: I, outcome: HatchOutcome)
    requires WellTyped(s) && Enabled(s, Hatch(i, outcome))
    ensures var t, e := Apply(names, s, Hatch(i, outcome)), s.eggs[i];
      var m, u := e.model, names(e.model);
      && t.requests == s.requests && t.jobs == s.jobs && t.loads == s.loads - {i}
      && if m !in s.procs || s.procs[m] != i then t.procs == s.procs && t.eggs == s.eggs && t.running == s.running
         else match outcome
           case Up => t.procs == s.procs && t.running == s.running + {u} && EggBecomes(s, t, i, Ready, Some(u), false)
           case NotReady => t.procs == s.procs && t.running == s.running - {u} && EggBecomes(s, t, i, Crashed, Some(u), true)
           case Unusable => t.procs == s.procs - {m} && t.running == s.running - {u} && EggBecomes(s, t, i, Crashed, Some(u), true)
           case BadSpec => t.procs == s.procs - {m} && t.running == s.running && EggBecomes(s, t, i, Crashed, e.unit, e.spent)
           case HatchFailed(cleaned) =>
             && t.procs == s.procs - {m} && EggBecomes(s, t, i, Crashed, e.unit, e.spent)
             && t.running == if cleaned then s.running - {u} else s.running
  {
  }

  // ------------------------------------------------------------ failures, marks, pins

  lemma CrashOutcomes<I>(names: Model -> Unit, s: State<I>, i: I, now: nat)
    requires WellTyped(s) && i in s.eggs
    ensures var t, e := Apply(names, s, Abandon(i)), s.eggs[i];
      t == s.(eggs := t.eggs) && EggBecomes(s, t, i, Crashed, e.unit, e.spent)
    ensures var t, e := Apply(names, s, NoteStuck(i, now)), s.eggs[i];
      if e.model in s.procs && s.procs[e.model] == i && e.pinUntil <= now
      then t == s.(eggs := t.eggs) && EggBecomes(s, t, i, Crashed, e.unit, e.spent) else t == s
  {
  }

  lemma CollectOutcome<I>(s: State<I>, i: I)
    requires WellTyped(s) && i in s.eggs
    ensures var t, e := Collect(s, i), s.eggs[i];
      && t == s.(eggs := t.eggs, running := t.running) && EggBecomes(s, t, i, e.phase, e.unit, e.spent || e.unit.Some?)
      && t.running == if e.unit.Some? then s.running - {e.unit.value} else s.running
  {
    assert s.eggs == s.eggs[i := s.eggs[i]];
  }

  lemma StopOutcomes<I>(names: Model -> Unit, s: State<I>, i: I)
    requires WellTyped(s) && i in s.eggs
    ensures var t, e := Apply(names, s, HardStop(i)), s.eggs[i];
      && t == s.(eggs := t.eggs, running := t.running) && EggBecomes(s, t, i, e.phase, e.unit, e.spent || e.unit.Some?)
      && t.running == if e.unit.Some? then s.running - {e.unit.value} else s.running
    ensures var t, e := Apply(names, s, Fuse(i)), s.eggs[i];
      && t == s.(eggs := t.eggs, running := t.running) && EggBecomes(s, t, i, Crashed, e.unit, e.spent || e.unit.Some?)
      && t.running == if e.unit.Some? then s.running - {e.unit.value} else s.running
  {
    CollectOutcome(s, i);
  }

  lemma MarkOutcomes<I>(names: Model -> Unit, s: State<I>, i: I, m: Model, now: nat)
    requires WellTyped(s)
    ensures i in s.eggs ==>
      var t, e := Apply(names, s, MarkServed(i, now)), s.eggs[i];
      && t == s.(eggs := t.eggs)
      && t.eggs == s.eggs[i := Egg(e.model, e.kind, e.threshold, e.phase, e.unit, e.inflight, e.served + 1, now, e.pinUntil, e.spent)]
    ensures m in s.procs ==>
      var t, e := Apply(names, s, Pin(m, now)), s.eggs[s.procs[m]];
      && t == s.(eggs := t.eggs)
      && t.eggs == s.eggs[s.procs[m] := Egg(e.model, e.kind, e.threshold, e.phase, e.unit, e.inflight, e.served, e.lastUsed, now, e.spent)]
    ensures m in s.procs && s.eggs[s.procs[m]].phase == Crashed ==>
      var t, e := Apply(names, s, ResetCrashed(m)), s.eggs[s.procs[m]];
      t == s.(eggs := t.eggs) && EggBecomes(s, t, s.procs[m], Loading, e.unit, e.spent)
  {
  }

  // ------------------------------------------------------------ who can take an egg out of service

  /** The time a step takes place at, where it matters. */
  ghost function Clock<I>(a: Action<I>): nat {
    match a
    case RequestModel(_, _, now) => now
    case PickExpired(_, now) => now
    case Load(_, _, _, _, _, now) => now
    case Unload(_, now) => now
    case UnloadAll(now) => now
    case NoteStuck(_, now) => now
    case _ => 0
  }

  /** The current incarnation of `m`, serving, its unit not collected. */
  ghost predicate InService<I>(s: State<I>, m: Model, i: I) {
    m in s.procs && s.procs[m] == i && i in s.eggs && s.eggs[i].phase in {Ready, IdleArmed} && !s.eggs[i].spent
  }

  /** The steps that do not ask whether an egg is pinned: stopping everything, loading the same name again,
      and the stops, failures and ends of loads of this very egg. */
  ghost predicate Regardless<I>(a: Action<I>, m: Model, i: I) {
    match a
    case StopAll => true
    case Load(model, _, _, _, _, _) => model == m
    case StopUnit(_, j) => j == i
    case Finalize(_, j) => j == i
    case Hatch(j, _) => j == i
    case Fuse(j) => j == i
    case Abandon(j) => j == i
    case HardStop(j) => j == i
    case _ => false
  }

  lemma StaysIn<I>(s: State<I>, t: State<I>, gone: set<Model>, m: Model, i: I)
    requires WellTyped(s) && Evicted(s, t, gone) && InService(s, m, i) && m !in gone
    ensures InService(t, m, i)
  {
  }

  lemma PinAgainstLoad<I>(names: Model -> Unit, s: State<I>, model: Model, kind: Kind, threshold: nat, j: I, c: LoadChoice,
                          now: nat, m: Model, i: I)
    requires WellTyped(s) && Enabled(s, Load(model, kind, threshold, j, c, now))
    requires InService(s, m, i) && now < s.eggs[i].pinUntil && m != model
    ensures InService(Apply(names, s, Load(model, kind, threshold, j, c, now)), m, i)
  {
    if !Heals(s, model) {
      PlansMayGo(s, model, kind, threshold, j, c, now);
      PinInLoad(s, model, kind, threshold, j, c, now, m, i);
    }
  }

  lemma PinInLoad<I>(s: State<I>, model: Model, kind: Kind, threshold: nat, j: I, c: LoadChoice, now: nat, m: Model, i: I)
    requires WellTyped(s) && j !in s.eggs && !Heals(s, model)
    requires InService(s, m, i) && m !in Leaving(s, model, kind, c, now) && m != model
    ensures InService(LoadStep(s, model, kind, threshold, j, c, now), m, i)
  {
    LoadLeaves(s, model, kind, threshold, j, c, now);
    var left := EvictAll(s, Leaving(s, model, kind, c, now));
    PinInLeft(s, Leaving(s, model, kind, c, now), left, m, i);
    PinBesidePlaced(left, model, kind, threshold, j, c, now, m, i);
  }

  lemma PinInLeft<I>(s: State<I>, gone: set<Model>, left: State<I>, m: Model, i: I)
    requires WellTyped(s) && InService(s, m, i) && m !in gone && left == EvictAll(s, gone)
    ensures InService(left, m, i) && left.eggs.Keys == s.eggs.Keys
  {
    EvictAllOutcome(s, gone);
    StaysIn(s, left, gone, m, i);
  }

  lemma PinBesidePlaced<I>(left: State<I>, model: Model, kind: Kind, threshold: nat, j: I, c: LoadChoice, now: nat, m: Model, i: I)
    requires InService(left, m, i) && j !in left.eggs && m != model
    ensures InService(Placed(left, model, kind, threshold, j, c, now), m, i)
  {
  }

  lemma PinAgainstUnload<I>(names: Model -> Unit, s: State<I>, ns: set<Model>, now: nat, m: Model, i: I)
    requires WellTyped(s) && InService(s, m, i) && now < s.eggs[i].pinUntil
    ensures Enabled(s, Unload(ns, now)) ==> InService(Apply(names, s, Unload(ns, now)), m, i)
    ensures InService(Apply(names, s, UnloadAll(now)), m, i)
  {
    if Enabled(s, Unload(ns, now)) {
      UnloadOutcome(names, s, ns, now);
      StaysIn(s, Apply(names, s, Unload(ns, now)), ns, m, i);
    }
    var t := Apply(names, s, UnloadAll(now));
    UnloadAllOutcome(names, s, now);
    StaysIn(s, t, s.procs.Keys - t.procs.Keys, m, i);
  }

  lemma PinAgainstUse<I>(names: Model -> Unit, s: State<I>, a: Action<I>, m: Model, i: I)
    requires WellTyped(s) && Enabled(s, a) && InService(s, m, i) && Clock(a) < s.eggs[i].pinUntil
    requires a.Acquire? || a.Release? || a.RequestModel? || a.PickExpired? || a.FindDraining? || a.Restore? || a.Reuse?
    ensures InService(Apply(names, s, a), m, i)
  {
    match a {
      case PickExpired(tid, now) => PickOutcome(names, s, tid, now);
      case _ =>
    }
  }

  lemma PinAgainstStop<I>(names: Model -> Unit, s: State<I>, a: Action<I>, m: Model, i: I)
    requires WellTyped(s) && Enabled(s, a) && InService(s, m, i) && !Regardless(a, m, i)
    requires a.StopUnit? || a.Finalize? || a.Hatch? || a.Fuse? || a.HardStop?
    ensures InService(Apply(names, s, a), m, i)
  {
    match a {
      case StopUnit(_, j) => CollectOutcome(s, j);
      case Hatch(j, outcome) => HatchOutcomes(names, s, j, outcome);
      case Fuse(j) => CollectOutcome(s, j);
      case HardStop(j) => CollectOutcome(s, j);
      case _ =>
    }
  }

  lemma PinAgainstMark<I>(names: Model -> Unit, s: State<I>, a: Action<I>, m: Model, i: I)
    requires WellTyped(s) && Enabled(s, a) && InService(s, m, i) && Clock(a) < s.eggs[i].pinUntil && !Regardless(a, m, i)
    requires a.Abandon? || a.NoteStuck? || a.ResetCrashed? || a.MarkServed? || a.Pin?
    ensures InService(Apply(names, s, a), m, i)
  {
  }

  /** A PIN HOLDS: no request for another model, sweep, unloading, making of room or stuck verdict takes a
      pinned egg out of service. */
  lemma PinnedStays<I>(names: Model -> Unit, s: State<I>, a: Action<I>, m: Model, i: I)
    requires WellTyped(s) && Enabled(s, a) && InService(s, m, i) && Clock(a) < s.eggs[i].pinUntil && !Regardless(a, m, i)
    ensures InService(Apply(names, s, a), m, i)
  {
    match a {
      case Load(model, kind, threshold, j, c, now) => PinAgainstLoad(names, s, model, kind, threshold, j, c, now, m, i);
      case Unload(ns, now) => PinAgainstUnload(names, s, ns, now, m, i);
      case UnloadAll(now) => PinAgainstUnload(names, s, {}, now, m, i);
      case Acquire(_, _, _) => PinAgainstUse(names, s, a, m, i);
      case Release(_, _) => PinAgainstUse(names, s, a, m, i);
      case RequestModel(_, _, _) => PinAgainstUse(names, s, a, m, i);
      case PickExpired(_, _) => PinAgainstUse(names, s, a, m, i);
      case FindDraining(_, _) => PinAgainstUse(names, s, a, m, i);
      case Restore(_, _, _) => PinAgainstUse(names, s, a, m, i);
      case Reuse(_, _) => PinAgainstUse(names, s, a, m, i);
      case Abandon(_) => PinAgainstMark(names, s, a, m, i);
      case NoteStuck(_, _) => PinAgainstMark(names, s, a, m, i);
      case ResetCrashed(_) => PinAgainstMark(names, s, a, m, i);
      case MarkServed(_, _) => PinAgainstMark(names, s, a, m, i);
      case Pin(_, _) => PinAgainstMark(names, s, a, m, i);
      case _ => PinAgainstStop(names, s, a, m, i);
    }
  }

  /** A BUSY EGG IS NOT DRAINED: neither the sweep nor a request for another model takes an egg with
      requests in flight out of service. */
  lemma BusyIsNotDrained<I>(names: Model -> Unit, s: State<I>, a: Action<I>, m: Model, i: I)
    requires WellTyped(s) && Enabled(s, a) && InService(s, m, i) && s.eggs[i].inflight > 0
    requires a.PickExpired? || a.RequestModel? || a.Acquire? || a.Release?
    ensures InService(Apply(names, s, a), m, i)
  {
    match a {
      case PickExpired(tid, now) => PickOutcome(names, s, tid, now);
      case _ =>
    }
  }
}

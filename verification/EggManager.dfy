/**
The table of model processes in the program's own shape: objects updated in place, with each
lock-held region a method.  `View` reads the heap as a state of the protocol machine, and every
method is proved to be exactly one of its actions.
*/
module EggManager {
  import opened Text
  import opened Wrappers
  import opened EggLifecycle

  class Subproc {
    const model: Model
    const kind: Kind
    const threshold: nat
    var phase: Phase
    var unit: Option<Unit>
    var inflight: nat
    var served: nat
    var lastUsed: nat
    var pinUntil: nat
    ghost var spent: bool

    constructor (model: Model, kind: Kind, threshold: nat, now: nat)
      ensures this.model == model
      ensures Read() == Egg(model, kind, threshold, Loading, None, 0, 0, now, 0, false)
    {
      this.model, this.kind, this.threshold := model, kind, threshold;
      phase, unit, inflight, served, lastUsed, pinUntil := Loading, None, 0, 0, now, 0;
      spent := false;
    }

    ghost function Read(): (e: Egg)
      reads this
      ensures e.model == model
    {
      Egg(model, kind, threshold, phase, unit, inflight, served, lastUsed, pinUntil, spent)
    }

    predicate Serving()
      reads this
      ensures Serving() == Read().Serving()
    {
      phase == Ready || phase == IdleArmed
    }

    predicate Pinned(now: nat)
      reads this
      ensures Pinned(now) == Read().Pinned(now)
    {
      now < pinUntil
    }

    predicate Evictable(now: nat)
      reads this
      ensures Evictable(now) == Read().Evictable(now)
    {
      served == 0 && !Pinned(now) && phase != Loading && model != ""
    }

    /** The idle sweep's test and claim, in one stretch of the lock. */
    method DrainIfExpired(now: nat) returns (won: bool)
      modifies this
      ensures won == old(Read()).Expired(now)
      ensures Read() == AfterPick(old(Read()), won)
    {
      won := phase == IdleArmed && inflight == 0 && !Pinned(now) && lastUsed != 0 && now > lastUsed + threshold;
      if won { phase := Draining; }
    }

    /** A request arrives: count it, and cancel a running countdown. */
    method CountIn(now: nat)
      requires Serving()
      modifies this
      ensures Read() == old(Read()).(inflight := old(inflight) + 1, lastUsed := now, phase := Ready)
    {
      inflight := inflight + 1;
      lastUsed := now;
      if phase == IdleArmed { phase := Ready; }
    }

    /** A request ends: the last one out starts the countdown. */
    method CountOut(now: nat)
      modifies this
      ensures Read() == ReleasedEgg(old(Read()), now)
    {
      if inflight > 0 { inflight := inflight - 1; }
      if inflight != 0 { return; }
      if phase == Ready {
        phase := IdleArmed;
        lastUsed := now;
      }
    }
  }

  class Manager {
    const unitName: Model -> Unit
    var procs: map<Model, Subproc>
    var running: set<Unit>                            // what the hatcher's service manager runs
    ghost var made: set<Subproc>
    ghost var requests: map<nat, (Model, Subproc)>
    ghost var loads: set<Subproc>
    ghost var jobs: map<(nat, Subproc), bool>

    ghost function View(): State<Subproc>
      reads this, made
    {
      State(procs, map sp | sp in made :: sp.Read(), running, requests, loads, jobs)
    }

    ghost predicate Valid()
      reads this, made
      ensures Valid() ==> WellTyped(View())
    {
      forall m :: m in procs ==> procs[m] in made && procs[m].model == m
    }

    constructor (unitName: Model -> Unit)
      ensures Valid() && made == {}
      ensures View() == State(map[], map[], {}, map[], {}, map[])
    {
      this.unitName := unitName;
      procs, running, made, requests, loads, jobs := map[], {}, {}, map[], {}, map[];
    }

    /** Of all incarnations made so far only `sp` may have changed. */
    twostate lemma OneWritten(sp: Subproc)
      requires old(Valid()) && made == old(made) && sp in made && procs == old(procs)
      requires forall o :: o in made && o != sp ==> unchanged(o)
      ensures Valid()
      ensures View() == SetEgg(old(View()), sp, sp.Read())
                          .(running := running, requests := requests, loads := loads, jobs := jobs)
    {
      assert View().eggs == old(View()).eggs[sp := sp.Read()];
    }

    // ------------------------------------------------------------ the request path

    method Acquire(model: Model, now: nat, ghost req: nat) returns (ok: bool)
      requires Valid() && req !in requests
      modifies this`requests, made
      ensures Valid()
      ensures View() == AcquireStep(old(View()), model, req, now)
      ensures ok <==> req in requests
    {
      if model !in procs { return false; }
      var sp := procs[model];
      if !sp.Serving() { return false; }
      sp.CountIn(now);
      requests := requests[req := (model, sp)];
      ok := true;
      OneWritten(sp);
    }

    method Release(model: Model, now: nat, ghost req: nat)
      requires Valid() && req in requests && requests[req].0 == model
      modifies this`requests, made
      ensures Valid()
      ensures View() == ReleaseStep(old(View()), req, now)
    {
      requests := requests - {req};
      if model !in procs { return; }
      var sp := procs[model];
      sp.CountOut(now);
      OneWritten(sp);
    }

    /** The table is walked in no fixed order; `seen` reports the egg the decision fell on. */
    method RequestModel(model: Model, now: nat)
      returns (needUnload: bool, blocked: bool, ghost seen: Option<Model>)
      requires Valid()
      modifies made
      ensures Valid()
      ensures Enabled(old(View()), Action.RequestModel(model, seen, now))
      ensures View() == RequestStep(old(View()), model, seen, now)
      ensures needUnload ==> seen.Some? && seen.value in procs && procs[seen.value].phase == Draining
      ensures needUnload || blocked <==> seen.Some? && seen.value != model
      ensures blocked <==> seen.Some? && seen.value != model && seen.value in procs
                           && (procs[seen.value].inflight != 0 || procs[seen.value].Pinned(now))
      ensures blocked || seen.None? ==> View() == old(View())
      ensures seen.Some? ==> seen.value in procs && old(procs[seen.value].phase) in {Ready, IdleArmed}
      ensures forall sp :: sp in made && (seen.None? || sp != procs[seen.value]) ==> sp.Read() == old(sp.Read())
      ensures seen == Some(model) ==>
        procs[model].Read() == old(procs[model].Read()).(phase := Ready, lastUsed := now)
      ensures needUnload ==>
        && old(procs[seen.value].inflight) == 0 && old(procs[seen.value].pinUntil) <= now
        && procs[seen.value].Read() == old(procs[seen.value].Read()).(phase := Draining)
    {
      var rest := procs.Keys;
      while rest != {}
        invariant rest <= procs.Keys
        invariant forall n :: n in procs && n !in rest ==> !procs[n].Serving()
        invariant View() == old(View()) && Valid()
      {
        var name :| name in rest;
        rest := rest - {name};
        var sp := procs[name];
        if sp.Serving() {
          seen := Some(name);
          if name == model {
            sp.lastUsed := now;
            sp.phase := Ready;
            needUnload, blocked := false, false;
          } else if sp.inflight != 0 || sp.Pinned(now) {
            needUnload, blocked := false, true;
          } else {
            sp.phase := Draining;
            needUnload, blocked := true, false;
          }
          OneWritten(sp);
          return;
        }
      }
      return false, false, None;
    }

    /** Start's shortcut for a model that is up: use it as it is. */
    method Reuse(model: Model, now: nat)
      requires Valid() && model in procs
      modifies made
      ensures Valid()
      ensures View() == ReuseStep(old(View()), model, now)
    {
      var sp := procs[model];
      sp.lastUsed := now;
      sp.served := sp.served + 1;
      sp.phase := Ready;
      OneWritten(sp);
    }

    // ------------------------------------------------------------ pick, stop, finalize

    /** The idle sweep's first half: every entry that is counting down, idle and past its threshold
        starts draining and is handed to thread `tid`. */
    method PickExpired(enabled: bool, now: nat, ghost tid: nat) returns (winners: set<Subproc>)
      requires Valid() && FreeThread(View(), tid)
      modifies this`jobs, made
      ensures Valid()
      ensures View() == if enabled then PickStep(old(View()), tid, now) else old(View())
      ensures forall sp :: sp in winners <==> sp in made && (tid, sp) in jobs
    {
      winners := {};
      if !enabled { return; }
      ghost var start := View();
      var rest := procs.Keys;
      while rest != {}
        invariant rest <= procs.Keys && unchanged(`jobs)
        invariant Picked(start, winners, now, rest)
      {
        var name :| name in rest;
        winners := Sweep(name, winners, now, start, rest);
        rest := rest - {name};
      }
      jobs := HandedTo(jobs, winners, tid);
      PickedAll(start, winners, now, tid);
    }

    method Sweep(name: Model, before: set<Subproc>, now: nat, ghost start: State<Subproc>, ghost rest: set<Model>)
      returns (winners: set<Subproc>)
      requires Picked(start, before, now, rest) && name in rest && name in procs
      modifies made
      ensures Picked(start, winners, now, rest - {name})
    {
      var sp := procs[name];
      var won := sp.DrainIfExpired(now);
      winners := if won then before + {sp} else before;
    }

    /** The sweep has looked at every entry outside `rest`, and at nothing else. */
    ghost predicate Picked(start: State<Subproc>, winners: set<Subproc>, now: nat, rest: set<Model>)
      reads this, made
    {
      && start.eggs.Keys == made && WellTyped(start)
      && start.procs == procs && start.running == running && start.requests == requests && start.loads == loads
      && (forall o :: o in made ==> o.Read() == AfterPick(start.eggs[o], o in winners))
      && (forall o :: o in winners ==> o in made && Current(start, o) && o.model !in rest && start.eggs[o].Expired(now))
      && (forall n :: n in procs && n !in rest && start.eggs[procs[n]].Expired(now) ==> procs[n] in winners)
    }

    lemma PickedAll(start: State<Subproc>, winners: set<Subproc>, now: nat, tid: nat)
      requires Picked(start, winners, now, {}) && jobs == HandedTo(start.jobs, winners, tid)
      ensures View() == PickStep(start, tid, now)
    {
      WonExactly(start, winners, now);
      assert View().eggs == PickStep(start, tid, now).eggs;
    }

    lemma WonExactly(start: State<Subproc>, winners: set<Subproc>, now: nat)
      requires Picked(start, winners, now, {})
      ensures winners == Winners(start, now)
    {
      forall o | o in winners ensures o in Winners(start, now) {
        assert start.procs[o.model] == o;
      }
    }

    /** Start, told to unload: take the first draining entry met on a walk in no fixed order. */
    method FindDraining(ghost tid: nat) returns (victim: Subproc?)
      requires Valid() && FreeThread(View(), tid)
      modifies this`jobs
      ensures Valid()
      ensures victim == null ==> View() == old(View()) && forall m :: m in procs ==> procs[m].phase != Draining
      ensures victim != null ==> Enabled(old(View()), Action.FindDraining(tid, victim.model))
      ensures victim != null ==> View() == Apply(unitName, old(View()), Action.FindDraining(tid, victim.model))
    {
      var rest := procs.Keys;
      while rest != {}
        invariant rest <= procs.Keys && unchanged(this)
        invariant forall n :: n in procs && n !in rest ==> procs[n].phase != Draining
      {
        var name :| name in rest;
        rest := rest - {name};
        if procs[name].phase == Draining {
          victim := procs[name];
          jobs := jobs[(tid, victim) := false];
          return;
        }
      }
      victim := null;
    }

    /** Collecting the unit an egg was started as; idempotent, and a no-op before it has one. */
    method StopSubproc(sp: Subproc)
      requires Valid() && sp in made
      modifies this`running, sp`spent
      ensures Valid()
      ensures View() == Collect(old(View()), sp)
      ensures sp.unit.Some? ==> sp.spent && running == old(running) - {sp.unit.value}
    {
      if sp.unit.None? { return; }
      running := running - {sp.unit.value};
      sp.spent := true;
      OneWritten(sp);
    }

    /** The sweep's second half, with the lock free: only the held handle is touched. */
    method StopVictim(sp: Subproc, ghost tid: nat)
      requires Valid() && sp in made && (tid, sp) in jobs && !jobs[(tid, sp)]
      modifies this`running, this`jobs, sp`spent
      ensures Valid()
      ensures View() == Apply(unitName, old(View()), StopUnit(tid, sp))
    {
      StopSubproc(sp);
      jobs := jobs[(tid, sp) := true];
    }

    /** Back under the lock: the entry goes only if it still is the incarnation that was stopped. */
    method FinalizeVictim(sp: Subproc, ghost tid: nat) returns (removed: bool)
      requires Valid() && sp in made && (tid, sp) in jobs && jobs[(tid, sp)]
      modifies this`procs, this`jobs
      ensures Valid()
      ensures View() == Apply(unitName, old(View()), Finalize(tid, sp))
      ensures removed <==> Current(old(View()), sp)
    {
      jobs := jobs - {(tid, sp)};
      removed := sp.model in procs && procs[sp.model] == sp;
      if removed { procs := procs - {sp.model}; }
    }

    /** A refused pre-check puts the victim's name back to ready, whoever carries it now. */
    method RestoreVictim(sp: Subproc, now: nat, ghost tid: nat)
      requires Valid() && sp in made && (tid, sp) in jobs && !jobs[(tid, sp)]
      modifies this`jobs, made
      ensures Valid()
      ensures View() == Apply(unitName, old(View()), Restore(tid, sp, now))
    {
      jobs := jobs - {(tid, sp)};
      if sp.model in procs && procs[sp.model].phase == Draining {
        var cur := procs[sp.model];
        cur.phase := Ready;
        cur.lastUsed := now;
        OneWritten(cur);
      }
    }

    // ------------------------------------------------------------ forced eviction

    method EvictSubproc(name: Model)
      requires Valid() && name in procs
      modifies this`procs, this`running, made
      ensures Valid()
      ensures View() == EvictOne(old(View()), name)
    {
      StopSubproc(procs[name]);
      procs := procs - {name};
    }

    /** One eviction after another comes to the same as evicting the whole set at once. */
    method EvictNames(names: set<Model>)
      requires Valid()
      modifies this`procs, this`running, made
      ensures Valid()
      ensures View() == EvictAll(old(View()), names)
    {
      var rest := names;
      ghost var start := View();
      EvictNobody(start);
      while rest != {}
        invariant rest <= names && Valid()
        invariant View() == EvictAll(start, names - rest)
      {
        var name :| name in rest;
        EvictedNext(start, names - rest, name);
        assert names - rest + {name} == names - (rest - {name});
        rest := rest - {name};
        if name in procs { EvictSubproc(name); }
      }
      assert names - rest == names;
    }

    /** The service-kind pass: evictable residents of another kind go, protected ones block. */
    method EvictOtherKinds(model: Model, kind: Kind, now: nat) returns (blocked: set<Model>)
      requires Valid()
      modifies this`procs, this`running, made
      ensures Valid()
      ensures View() == EvictAll(old(View()), OtherKinds(old(View()), model, kind) * EvictableNames(old(View()), now))
      ensures blocked == OtherKinds(View(), model, kind)
    {
      ghost var start := View();
      var victims;
      victims, blocked := SortOut(model, kind, now);
      EvictNames(victims);
    }

    method SortOut(model: Model, kind: Kind, now: nat) returns (victims: set<Model>, blocked: set<Model>)
      requires Valid()
      ensures victims == OtherKinds(View(), model, kind) * EvictableNames(View(), now)
      ensures blocked == OtherKinds(View(), model, kind) - EvictableNames(View(), now)
    {
      ghost var start := View();
      var actionable := set m | m in procs && procs[m].Evictable(now);
      assert actionable == EvictableNames(start, now);
      var rest := procs.Keys;
      victims := {};
      blocked := {};
      while rest != {}
        invariant rest <= procs.Keys
        invariant victims == (OtherKinds(start, model, kind) - rest) * actionable
        invariant blocked == (OtherKinds(start, model, kind) - rest) - actionable
      {
        var name :| name in rest;
        rest := rest - {name};
        if name != model && procs[name].kind != kind {
          if name in actionable { victims := victims + {name}; } else { blocked := blocked + {name}; }
        }
      }
    }

    // ------------------------------------------------------------ one load

    /** doStart under the lock, up to the point where a placeholder stands in the table and the lock
        is released for the expansion; `placed` is that placeholder.  Without one the outcome does not
        depend on the incarnation the machine's step would have used (`other`). */
    method DoStart(model: Model, kind: Kind, threshold: nat, c: LoadChoice, now: nat, ghost other: Subproc)
      returns (placed: Option<Subproc>)
      requires Valid()
      requires c.overflow <= EvictableNames(Cleared(View(), model), now)
      requires c.memory <= EvictableNames(AfterKinds(View(), model, kind, c, now), now)
      modifies this`procs, this`running, this`loads, this`made, made
      ensures Valid()
      ensures placed.None? ==> View() == LoadStep(old(View()), model, kind, threshold, other, c, now)
      ensures placed.Some? ==>
        fresh(placed.value) && View() == LoadStep(old(View()), model, kind, threshold, placed.value, c, now)
    {
      placed := None;
      if model in procs {
        if procs[model].phase == Draining && procs[model].unit.Some? {
          Reuse(model, now);
          return;
        }
        EvictSubproc(model);
      }
      if c.refusedEarly { return; }
      assert View() == Cleared(old(View()), model);
      placed := Admit(model, kind, threshold, c, now, other);
      LoadIsAdmit(old(View()), model, kind, threshold, if placed.Some? then placed.value else other, c, now);
    }

    /** Making room and placing the entry, once no entry of the same name is left. */
    method Admit(model: Model, kind: Kind, threshold: nat, c: LoadChoice, now: nat, ghost other: Subproc)
      returns (placed: Option<Subproc>)
      requires Valid()
      modifies this`procs, this`running, this`loads, this`made, made
      ensures Valid()
      ensures placed.None? ==> View() == AdmitStep(old(View()), model, kind, threshold, other, c, now)
      ensures placed.Some? ==>
        fresh(placed.value) && View() == AdmitStep(old(View()), model, kind, threshold, placed.value, c, now)
    {
      placed := None;
      EvictNames(c.overflow);
      var blocked := EvictOtherKinds(model, kind, now);
      if blocked != {} { return; }
      EvictNames(c.memory);
      if c.refusedLate { return; }
      var sp := Place(model, kind, threshold, c, now);
      placed := Some(sp);
    }

    method Place(model: Model, kind: Kind, threshold: nat, c: LoadChoice, now: nat) returns (sp: Subproc)
      requires Valid()
      modifies this`procs, this`loads, this`made
      ensures Valid() && fresh(sp)
      ensures View() == Placed(old(View()), model, kind, threshold, sp, c, now)
    {
      sp := new Subproc(model, kind, threshold, now);
      procs := procs[model := sp];
      made := made + {sp};
      if !c.portFree { sp.phase := Crashed; } else { loads := loads + {sp}; }
      assert View().eggs == old(View()).eggs[sp := sp.Read()];
    }

    /** hatchStartLocked after the expansion: the lock is held again, the placeholder is checked by
        identity, and only then is a unit started. */
    method HatchFinish(sp: Subproc, outcome: HatchOutcome) returns (serving: bool)
      requires Valid() && sp in made && sp in loads
      modifies this`procs, this`running, this`loads, sp
      ensures Valid()
      ensures View() == HatchStep(unitName, old(View()), sp, outcome)
      ensures serving <==> outcome.Up? && Current(old(View()), sp)
    {
      if sp.model in procs && procs[sp.model] == sp {
        serving := HatchHeld(sp, outcome);
      } else {
        serving := false;
        GiveWay(sp);
      }
    }

    /** The placeholder was taken away while the lock was free: nothing but the load ends. */
    method GiveWay(sp: Subproc)
      requires Valid() && sp in made && !Current(View(), sp)
      modifies this`loads
      ensures Valid()
      ensures View() == old(View()).(loads := old(loads) - {sp})
    {
      loads := loads - {sp};
    }

    method HatchHeld(sp: Subproc, outcome: HatchOutcome) returns (serving: bool)
      requires Valid() && sp in made && Current(View(), sp)
      modifies this`procs, this`running, this`loads, sp
      ensures Valid()
      ensures View() == HatchStep(unitName, old(View()), sp, outcome)
      ensures serving <==> outcome.Up?
    {
      ghost var start := View();
      loads := loads - {sp};
      serving := Launch(sp, outcome);
      Launched(start, sp, outcome);
    }

    method Launch(sp: Subproc, outcome: HatchOutcome) returns (serving: bool)
      requires Valid() && sp in made && sp.model in procs
      modifies this`procs, this`running, sp
      ensures sp.Read() == HatchedEgg(old(sp.Read()), unitName(sp.model), outcome)
      ensures procs == HatchedProcs(old(procs), sp.model, outcome)
      ensures running == HatchedRunning(old(running), unitName(sp.model), outcome)
      ensures serving <==> outcome.Up?
    {
      serving := outcome.Up?;
      if outcome.BadSpec? || outcome.HatchFailed? {
        RefusePlaceholder(sp, outcome);
      } else {
        StartAndCheck(sp, outcome);
      }
    }

    method StartAndCheck(sp: Subproc, outcome: HatchOutcome)
      requires Valid() && sp in made && sp.model in procs && (outcome.Up? || outcome.NotReady? || outcome.Unusable?)
      modifies this`procs, this`running, sp`unit, sp`spent, sp`phase
      ensures sp.unit == Some(unitName(sp.model)) && sp.spent == !outcome.Up?
      ensures sp.phase == if outcome.Up? then Ready else Crashed
      ensures procs == HatchedProcs(old(procs), sp.model, outcome)
      ensures running == HatchedRunning(old(running), unitName(sp.model), outcome)
    {
      StartUnit(sp);
      if outcome.Up? { sp.phase := Ready; } else { GiveUp(sp, outcome.Unusable?); }
    }

    lemma Launched(start: State<Subproc>, sp: Subproc, outcome: HatchOutcome)
      requires WellTyped(start) && start.eggs.Keys == made && Current(start, sp)
      requires forall o :: o in made && o != sp ==> o.Read() == start.eggs[o]
      requires sp.Read() == HatchedEgg(start.eggs[sp], unitName(sp.model), outcome)
      requires procs == HatchedProcs(start.procs, sp.model, outcome)
      requires running == HatchedRunning(start.running, unitName(sp.model), outcome)
      requires requests == start.requests && jobs == start.jobs && loads == start.loads - {sp}
      ensures View() == HatchStep(unitName, start, sp, outcome)
    {
      HatchedParts(unitName, start, sp, outcome);
      assert View().eggs == start.eggs[sp := sp.Read()];
    }

    /** The unit came up but cannot serve: collect it, and drop the entry when it is unusable. */
    method GiveUp(sp: Subproc, drop: bool)
      requires Valid() && sp in made && sp.model in procs && sp.unit.Some?
      modifies this`procs, this`running, sp`phase, sp`spent
      ensures sp.phase == Crashed && sp.spent
      ensures running == old(running) - {sp.unit.value}
      ensures procs == if drop then old(procs) - {sp.model} else old(procs)
    {
      StopSubproc(sp);
      sp.phase := Crashed;
      if drop { procs := procs - {sp.model}; }
    }

    method RefusePlaceholder(sp: Subproc, outcome: HatchOutcome)
      requires Valid() && sp in made && sp.model in procs && (outcome.BadSpec? || outcome.HatchFailed?)
      modifies this`procs, this`running, sp`phase
      ensures Valid() && sp.phase == Crashed && procs == old(procs) - {sp.model}
      ensures running == if outcome.HatchFailed? && outcome.cleaned then old(running) - {unitName(sp.model)} else old(running)
    {
      if outcome.HatchFailed? && outcome.cleaned { running := running - {unitName(sp.model)}; }
      sp.phase := Crashed;
      procs := procs - {sp.model};
    }

    method StartUnit(sp: Subproc)
      requires Valid() && sp in made
      modifies this`running, sp`unit, sp`spent
      ensures sp.unit == Some(unitName(sp.model)) && !sp.spent && running == old(running) + {unitName(sp.model)}
    {
      running := running + {unitName(sp.model)};
      sp.unit := Some(unitName(sp.model));
      sp.spent := false;
    }

    // ------------------------------------------------------------ unload

    /** A targeted unload trims every name, looks it up again and skips what may not be touched. */
    method Unload(models: seq<string>, now: nat) returns (stopped: set<Model>)
      requires Valid()
      modifies this`procs, this`running, made
      ensures Valid()
      ensures stopped == (set m | m in models && Trim(m) in EvictableNames(old(View()), now) :: Trim(m))
      ensures View() == EvictAll(old(View()), stopped)
    {
      ghost var start := View();
      EvictNobody(start);
      stopped := {};
      for k := 0 to |models|
        invariant Valid() && View() == EvictAll(start, stopped)
        invariant stopped == set m | m in models[..k] && Trim(m) in EvictableNames(start, now) :: Trim(m)
      {
        var name := Trim(models[k]);
        EvictedNext(start, stopped, name);
        EvictableStays(start, stopped, name, now);
        var gone := EvictIfAllowed(name, now);
        ghost var before := stopped;
        if gone { stopped := stopped + {name}; }
        NamedNext(models, k, before, EvictableNames(start, now));
      }
      assert models[..|models|] == models;
    }

    method EvictIfAllowed(name: Model, now: nat) returns (gone: bool)
      requires Valid()
      modifies this`procs, this`running, made
      ensures Valid()
      ensures gone <==> name in EvictableNames(old(View()), now)
      ensures View() == if gone then EvictOne(old(View()), name) else old(View())
    {
      gone := name in procs && procs[name].Evictable(now);
      if gone { EvictSubproc(name); }
    }

    /** The full unload keeps what is pinned. */
    method UnloadAll(now: nat)
      requires Valid()
      modifies this`procs, this`running, made
      ensures Valid()
      ensures View() == Apply(unitName, old(View()), Action.UnloadAll(now))
    {
      var names := set m | m in procs && !procs[m].Pinned(now);
      assert names == set m | m in View().procs && !View().eggs[View().procs[m]].Pinned(now);
      EvictNames(names);
    }
  }

  ghost function ReuseStep(s: State<Subproc>, model: Model, now: nat): State<Subproc>
    requires WellTyped(s) && model in s.procs
  {
    var e := s.eggs[s.procs[model]];
    SetEgg(s, s.procs[model], e.(phase := Ready, lastUsed := now, served := e.served + 1))
  }

  /** LoadStep once the model's own entry is gone. */
  ghost function AdmitStep(s: State<Subproc>, model: Model, kind: Kind, threshold: nat, i: Subproc, c: LoadChoice, now: nat): State<Subproc>
    requires WellTyped(s)
  {
    var s2 := EvictAll(s, c.overflow);
    var s3 := EvictAll(s2, OtherKinds(s2, model, kind) * EvictableNames(s2, now));
    if OtherKinds(s3, model, kind) != {} then s3
    else if c.refusedLate then EvictAll(s3, c.memory)
    else Placed(EvictAll(s3, c.memory), model, kind, threshold, i, c, now)
  }

  lemma LoadIsAdmit(s: State<Subproc>, model: Model, kind: Kind, threshold: nat, i: Subproc, c: LoadChoice, now: nat)
    requires WellTyped(s) && !Heals(s, model) && !c.refusedEarly
    ensures WellTyped(Cleared(s, model))
    ensures LoadStep(s, model, kind, threshold, i, c, now) == AdmitStep(Cleared(s, model), model, kind, threshold, i, c, now)
  {
  }

  ghost function HatchedEgg(e: Egg, u: Unit, o: HatchOutcome): Egg {
    match o
    case BadSpec => e.(phase := Crashed)
    case HatchFailed(_) => e.(phase := Crashed)
    case Up => e.(phase := Ready, unit := Some(u), spent := false)
    case _ => e.(phase := Crashed, unit := Some(u), spent := true)
  }

  lemma HatchedParts(names: Model -> Unit, s: State<Subproc>, i: Subproc, o: HatchOutcome)
    requires Current(s, i)
    ensures HatchStep(names, s, i, o) ==
      var u := names(s.eggs[i].model);
      State(HatchedProcs(s.procs, s.eggs[i].model, o), s.eggs[i := HatchedEgg(s.eggs[i], u, o)],
            HatchedRunning(s.running, u, o), s.requests, s.loads - {i}, s.jobs)
  {
  }

  ghost function HatchedProcs(procs: map<Model, Subproc>, m: Model, o: HatchOutcome): map<Model, Subproc> {
    if o.Up? || o.NotReady? then procs else procs - {m}
  }

  ghost function HatchedRunning(running: set<Unit>, u: Unit, o: HatchOutcome): set<Unit> {
    if o.Up? then running + {u} else if o.BadSpec? || (o.HatchFailed? && !o.cleaned) then running else running - {u}
  }

  /** The names taken up to and including one more. */
  lemma NamedNext(models: seq<string>, k: nat, before: set<Model>, allowed: set<Model>)
    requires k < |models| && before == set m | m in models[..k] && Trim(m) in allowed :: Trim(m)
    ensures (set m | m in models[..k + 1] && Trim(m) in allowed :: Trim(m)) ==
      if Trim(models[k]) in allowed then before + {Trim(models[k])} else before
  {
    assert models[..k + 1] == models[..k] + [models[k]];
    var after := set m | m in models[..k + 1] && Trim(m) in allowed :: Trim(m);
    forall x ensures x in after <==> x in before || (x == Trim(models[k]) && x in allowed) {
      if x in after {
        var m :| m in models[..k + 1] && Trim(m) in allowed && x == Trim(m);
        if m != models[k] { assert m in models[..k]; }
      }
      if x in before {
        var m :| m in models[..k] && Trim(m) in allowed && x == Trim(m);
        assert m in models[..k + 1];
      }
    }
  }

  lemma EvictableStays<I>(s: State<I>, done: set<Model>, m: Model, now: nat)
    requires WellTyped(s)
    ensures WellTyped(EvictAll(s, done))
    ensures m in EvictableNames(EvictAll(s, done), now) <==> m in EvictableNames(s, now) && m !in done
  {
  }

  /** Forced evictions compose: evicting `m` after `done` is evicting `done + {m}`. */
  lemma EvictedNext<I>(s: State<I>, done: set<Model>, m: Model)
    requires WellTyped(s)
    ensures WellTyped(EvictAll(s, done))
    ensures EvictAll(s, done + {m}) ==
      if m in EvictAll(s, done).procs then EvictOne(EvictAll(s, done), m) else EvictAll(s, done)
  {
    if m in EvictAll(s, done).procs { EvictedPresent(s, done, m); } else { EvictedAbsent(s, done, m); }
  }

  lemma EvictedPresent<I>(s: State<I>, done: set<Model>, m: Model)
    requires WellTyped(s) && m in s.procs && m !in done
    ensures WellTyped(EvictAll(s, done))
    ensures EvictAll(s, done + {m}) == EvictOne(EvictAll(s, done), m)
  {
    var t := EvictAll(s, done);
    var v := EvictAll(s, done + {m});
    var e := EvictOne(t, m);
    assert v.procs == e.procs;
    assert v.eggs == e.eggs;
    assert UnitsOf(s, done + {m}) == UnitsOf(s, done) + UnitsOf(s, {m});
    assert v.running == e.running;
  }

  lemma EvictedAbsent<I>(s: State<I>, done: set<Model>, m: Model)
    requires WellTyped(s) && (m !in s.procs || m in done)
    ensures EvictAll(s, done + {m}) == EvictAll(s, done)
  {
    var t := EvictAll(s, done);
    var v := EvictAll(s, done + {m});
    assert v.procs == t.procs;
    assert v.eggs == t.eggs;
    assert UnitsOf(s, done + {m}) == UnitsOf(s, done);
  }
}

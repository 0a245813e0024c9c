/**
The resident-model protocol of the agent: a table of model processes under one mutex, changed by
steps that hold the lock and by steps that do not.  Every action below is one atomic step of the
program; threads interleave freely between them.  An incarnation (type parameter I) is the identity
of one `*subproc`: the table may be given a new incarnation of a model while another thread still
holds the old one.
*/
module EggLifecycle {
  import opened Wrappers

  type Model = string
  type Unit = string

  datatype Kind = Llama | Ds4

  datatype Phase = Loading | Ready | IdleArmed | Draining | Crashed

  /** One `*subproc`.  `spent` records that its unit has been collected since it was started;
      `served` is the program's reqCount, which never goes down. */
  datatype Egg = Egg(model: Model, kind: Kind, threshold: nat, phase: Phase, unit: Option<Unit>,
                     inflight: nat, served: nat, lastUsed: nat, pinUntil: nat, spent: bool)
  {
    predicate Serving() {
      phase.Ready? || phase.IdleArmed?
    }

    predicate Pinned(now: nat) {
      now < pinUntil
    }

    /** The idle sweep's test: counting down, nothing in flight, not pinned, past its threshold. */
    predicate Expired(now: nat) {
      && phase.IdleArmed?
      && inflight == 0
      && !Pinned(now)
      && lastUsed != 0
      && now > lastUsed + threshold
    }

    /** The admission test every forced eviction applies (resources.ActionBlockReason).  It looks at
        `served`, not at `inflight`. */
    predicate Evictable(now: nat) {
      served == 0 && !Pinned(now) && !phase.Loading? && model != ""
    }
  }

  /** `requests` are the outstanding inference requests with the incarnation they were counted on;
      `loads` the loaders that have released the lock to expand; `jobs` the threads that hold an
      incarnation to stop, with whether they have stopped it yet. */
  datatype State<I> = State(procs: map<Model, I>, eggs: map<I, Egg>, running: set<Unit>,
                            requests: map<nat, (Model, I)>, loads: set<I>, jobs: map<(nat, I), bool>)

  datatype HatchOutcome =
    | BadSpec                        // expansion or declaration refused: no unit touched
    | HatchFailed(cleaned: bool)     // the hatcher failed, before or after clearing the unit name
    | NotReady                       // unit started, never became ready: collected, entry kept
    | Unusable                       // probe failed or enclosure mismatch: collected, entry removed
    | Up

  /** What the parts outside this model decide during one load: refusals, eviction plans, ports. */
  datatype LoadChoice = LoadChoice(refusedEarly: bool, overflow: set<Model>, memory: set<Model>,
                                   refusedLate: bool, portFree: bool)

  datatype Action<I> =
    | Acquire(model: Model, req: nat, now: nat)
    | Release(req: nat, now: nat)
    | RequestModel(model: Model, seen: Option<Model>, now: nat)
    | PickExpired(tid: nat, now: nat)
    | FindDraining(tid: nat, name: Model)
    | StopUnit(tid: nat, egg: I)
    | Finalize(tid: nat, egg: I)
    | Restore(tid: nat, egg: I, now: nat)
    | Reuse(model: Model, now: nat)
    | Load(model: Model, kind: Kind, threshold: nat, egg: I, choice: LoadChoice, now: nat)
    | Hatch(egg: I, outcome: HatchOutcome)
    | Unload(names: set<Model>, now: nat)
    | UnloadAll(now: nat)
    | StopAll
    | Fuse(egg: I)
    | ResetCrashed(model: Model)
    | NoteStuck(egg: I, now: nat)
    | Abandon(egg: I)
    | HardStop(egg: I)
    | MarkServed(egg: I, now: nat)
    | Pin(model: Model, until: nat)

  // ---------------------------------------------------------------- building blocks

  ghost predicate WellTyped<I>(s: State<I>) {
    forall m :: m in s.procs ==> s.procs[m] in s.eggs && s.eggs[s.procs[m]].model == m
  }

  ghost predicate Current<I>(s: State<I>, i: I)
  {
    i in s.eggs && s.eggs[i].model in s.procs && s.procs[s.eggs[i].model] == i
  }

  ghost function SetEgg<I>(s: State<I>, i: I, e: Egg): State<I> {
    s.(eggs := s.eggs[i := e])
  }

  /** stopSubproc / stopVictimProcess: collecting a unit that exists; nothing without one. */
  ghost function Collect<I>(s: State<I>, i: I): State<I>
    requires i in s.eggs
  {
    match s.eggs[i].unit
    case None => s
    case Some(u) => s.(running := s.running - {u}, eggs := s.eggs[i := s.eggs[i].(spent := true)])
  }

  ghost function Drop<I>(s: State<I>, m: Model): State<I> {
    s.(procs := s.procs - {m})
  }

  ghost function EvictOne<I>(s: State<I>, m: Model): State<I>
    requires WellTyped(s) && m in s.procs
  {
    Drop(Collect(s, s.procs[m]), m)
  }

  /** Collect and remove every entry named in `names`, in one lock-held stretch. */
  ghost function EvictAll<I>(s: State<I>, names: set<Model>): State<I>
    requires WellTyped(s)
  {
    State(s.procs - names,
          map i | i in s.eggs :: if Current(s, i) && s.eggs[i].model in names && s.eggs[i].unit.Some?
                                 then s.eggs[i].(spent := true) else s.eggs[i],
          s.running - UnitsOf(s, names), s.requests, s.loads, s.jobs)
  }

  lemma EvictNobody<I>(s: State<I>)
    requires WellTyped(s)
    ensures EvictAll(s, {}) == s
  {
    var t := EvictAll(s, {});
    assert t.procs == s.procs && t.eggs == s.eggs && t.running == s.running;
  }

  ghost function UnitsOf<I>(s: State<I>, names: set<Model>): set<Unit>
    requires WellTyped(s)
  {
    set m | m in names && m in s.procs && s.eggs[s.procs[m]].unit.Some? :: s.eggs[s.procs[m]].unit.value
  }

  ghost function EvictableNames<I>(s: State<I>, now: nat): set<Model>
    requires WellTyped(s)
  {
    set m | m in s.procs && s.eggs[s.procs[m]].Evictable(now)
  }

  ghost function OtherKinds<I>(s: State<I>, model: Model, kind: Kind): set<Model>
    requires WellTyped(s)
  {
    set m | m in s.procs && m != model && s.eggs[s.procs[m]].kind != kind
  }

  // ---------------------------------------------------------------- one load, up to the unlock

  /** doStart first clears a same-named entry that it does not heal. */
  ghost function Cleared<I>(s: State<I>, model: Model): State<I>
    requires WellTyped(s)
  {
    if model in s.procs then EvictOne(s, model) else s
  }

  ghost predicate Heals<I>(s: State<I>, model: Model)
    requires WellTyped(s)
  {
    model in s.procs && s.eggs[s.procs[model]].phase.Draining? && s.eggs[s.procs[model]].unit.Some?
  }

  ghost function AfterOverflow<I>(s: State<I>, model: Model, c: LoadChoice): State<I>
    requires WellTyped(s)
    ensures WellTyped(AfterOverflow(s, model, c))
  {
    EvictAll(Cleared(s, model), c.overflow)
  }

  /** The service-kind pass: every evictable resident of another kind goes; a protected one blocks. */
  ghost function AfterKinds<I>(s: State<I>, model: Model, kind: Kind, c: LoadChoice, now: nat): State<I>
    requires WellTyped(s)
    ensures WellTyped(AfterKinds(s, model, kind, c, now))
  {
    var s2 := AfterOverflow(s, model, c);
    EvictAll(s2, OtherKinds(s2, model, kind) * EvictableNames(s2, now))
  }

  ghost function Placed<I>(s: State<I>, model: Model, kind: Kind, threshold: nat, i: I, c: LoadChoice, now: nat): State<I> {
    var e := Egg(model, kind, threshold, if c.portFree then Loading else Crashed, None, 0, 0, now, 0, false);
    s.(procs := s.procs[model := i], eggs := s.eggs[i := e],
       loads := if c.portFree then s.loads + {i} else s.loads)
  }

  ghost function LoadStep<I>(s: State<I>, model: Model, kind: Kind, threshold: nat, i: I, c: LoadChoice, now: nat): State<I>
    requires WellTyped(s)
  {
    if Heals(s, model) then
      var j := s.procs[model];
      SetEgg(s, j, s.eggs[j].(phase := Ready, lastUsed := now, served := s.eggs[j].served + 1))
    else if c.refusedEarly then Cleared(s, model)
    else
      var s3 := AfterKinds(s, model, kind, c, now);
      if OtherKinds(s3, model, kind) != {} then s3
      else
        var s4 := EvictAll(s3, c.memory);
        if c.refusedLate then s4 else Placed(s4, model, kind, threshold, i, c, now)
  }

  // ---------------------------------------------------------------- the expansion's end

  ghost function HatchStep<I>(names: Model -> Unit, s: State<I>, i: I, outcome: HatchOutcome): State<I>
    requires i in s.eggs
  {
    var s1 := s.(loads := s.loads - {i});
    var m := s.eggs[i].model;
    var u := names(m);
    var crashed := s.eggs[i].(phase := Crashed);
    if !Current(s, i) then s1     // the placeholder was taken away while the lock was free
    else match outcome
      case BadSpec => Drop(SetEgg(s1, i, crashed), m)
      case HatchFailed(cleaned) =>
        var s2 := if cleaned then s1.(running := s1.running - {u}) else s1;
        Drop(SetEgg(s2, i, crashed), m)
      case NotReady =>
        SetEgg(s1.(running := s1.running - {u}), i, crashed.(unit := Some(u), spent := true))
      case Unusable =>
        Drop(SetEgg(s1.(running := s1.running - {u}), i, crashed.(unit := Some(u), spent := true)), m)
      case Up =>
        SetEgg(s1.(running := s1.running + {u}), i, s.eggs[i].(phase := Ready, unit := Some(u), spent := false))
  }

  // ---------------------------------------------------------------- the request path

  ghost function AcquireStep<I>(s: State<I>, model: Model, req: nat, now: nat): State<I>
    requires WellTyped(s)
  {
    if model in s.procs && s.eggs[s.procs[model]].Serving() then
      var i := s.procs[model];
      SetEgg(s, i, s.eggs[i].(inflight := s.eggs[i].inflight + 1, lastUsed := now, phase := Ready))
        .(requests := s.requests[req := (model, i)])
    else s
  }

  ghost function ReleasedEgg(e: Egg, now: nat): Egg {
    var n := if e.inflight > 0 then e.inflight - 1 else 0;
    if n == 0 && e.phase.Ready? then e.(inflight := 0, phase := IdleArmed, lastUsed := now)
    else e.(inflight := n)
  }

  /** releaseInflight finds the egg by name, whatever incarnation now carries it. */
  ghost function ReleaseStep<I>(s: State<I>, req: nat, now: nat): State<I>
    requires WellTyped(s) && req in s.requests
  {
    var m := s.requests[req].0;
    var s1 := s.(requests := s.requests - {req});
    if m in s.procs then SetEgg(s1, s.procs[m], ReleasedEgg(s.eggs[s.procs[m]], now)) else s1
  }

  /** RequestModel walks the table in no fixed order and decides on the first serving egg it sees. */
  ghost function RequestStep<I>(s: State<I>, model: Model, seen: Option<Model>, now: nat): State<I>
    requires WellTyped(s) && (seen.Some? ==> seen.value in s.procs)
  {
    match seen
    case None => s
    case Some(n) =>
      var i := s.procs[n];
      var e := s.eggs[i];
      if n == model then SetEgg(s, i, e.(phase := Ready, lastUsed := now))
      else if e.inflight != 0 || e.Pinned(now) then s
      else SetEgg(s, i, e.(phase := Draining))
  }

  ghost function Winners<I>(s: State<I>, now: nat): set<I>
    requires WellTyped(s)
  {
    set m | m in s.procs && s.eggs[s.procs[m]].Expired(now) :: s.procs[m]
  }

  ghost function AfterPick(e: Egg, won: bool): Egg {
    if won then e.(phase := Draining) else e
  }

  ghost function HandedTo<I>(jobs: map<(nat, I), bool>, winners: set<I>, tid: nat): map<(nat, I), bool> {
    jobs + map i | i in winners :: (tid, i) := false
  }

  /** The sweep's first half takes every expired entry in one stretch of the lock. */
  ghost function PickStep<I>(s: State<I>, tid: nat, now: nat): State<I>
    requires WellTyped(s)
  {
    var won := Winners(s, now);
    s.(eggs := map i | i in s.eggs :: AfterPick(s.eggs[i], i in won), jobs := HandedTo(s.jobs, won, tid))
  }

  // ---------------------------------------------------------------- the machine

  ghost predicate FreeThread<I>(s: State<I>, tid: nat) {
    forall k :: k in s.jobs ==> k.0 != tid
  }

  ghost predicate Enabled<I>(s: State<I>, a: Action<I>)
    requires WellTyped(s)
  {
    match a
    case Acquire(_, req, _) => req !in s.requests
    case Release(req, _) => req in s.requests
    case RequestModel(_, None, _) => forall m :: m in s.procs ==> !s.eggs[s.procs[m]].Serving()
    case RequestModel(_, Some(n), _) => n in s.procs && s.eggs[s.procs[n]].Serving()
    case PickExpired(tid, _) => FreeThread(s, tid)
    case FindDraining(tid, n) => FreeThread(s, tid) && n in s.procs && s.eggs[s.procs[n]].phase.Draining?
    case StopUnit(tid, i) => i in s.eggs && (tid, i) in s.jobs && !s.jobs[(tid, i)]
    case Finalize(tid, i) => i in s.eggs && (tid, i) in s.jobs && s.jobs[(tid, i)]
    case Restore(tid, i, _) => i in s.eggs && (tid, i) in s.jobs && !s.jobs[(tid, i)]
    case Reuse(m, _) => m in s.procs && s.eggs[s.procs[m]].Serving()
    case Load(m, kind, _, i, c, now) =>
      && i !in s.eggs
      && c.overflow <= EvictableNames(Cleared(s, m), now)
      && c.memory <= EvictableNames(AfterKinds(s, m, kind, c, now), now)
    case Hatch(i, _) => i in s.loads && i in s.eggs
    case Unload(names, now) => names <= EvictableNames(s, now)
    case UnloadAll(_) => true
    case StopAll => true
    case Fuse(i) => i in s.eggs
    case ResetCrashed(m) => m in s.procs && s.eggs[s.procs[m]].phase.Crashed?
    case NoteStuck(i, _) => i in s.eggs
    case Abandon(i) => i in s.eggs
    case HardStop(i) => i in s.eggs
    case MarkServed(i, _) => i in s.eggs
    case Pin(m, _) => m in s.procs
  }

  ghost function Apply<I>(names: Model -> Unit, s: State<I>, a: Action<I>): State<I>
    requires WellTyped(s) && Enabled(s, a)
  {
    match a
    case Acquire(m, req, now) => AcquireStep(s, m, req, now)
    case Release(req, now) => ReleaseStep(s, req, now)
    case RequestModel(m, seen, now) => RequestStep(s, m, seen, now)
    case PickExpired(tid, now) => PickStep(s, tid, now)
    case FindDraining(tid, n) => s.(jobs := s.jobs[(tid, s.procs[n]) := false])
    case StopUnit(tid, i) => Collect(s, i).(jobs := s.jobs[(tid, i) := true])
    case Finalize(tid, i) =>
      var s1 := s.(jobs := s.jobs - {(tid, i)});
      if Current(s, i) then Drop(s1, s.eggs[i].model) else s1
    case Restore(tid, i, now) =>
      var s1 := s.(jobs := s.jobs - {(tid, i)});
      var m := s.eggs[i].model;
      if m in s.procs && s.eggs[s.procs[m]].phase.Draining?
      then SetEgg(s1, s.procs[m], s.eggs[s.procs[m]].(phase := Ready, lastUsed := now)) else s1
    case Reuse(m, now) =>
      var e := s.eggs[s.procs[m]];
      SetEgg(s, s.procs[m], e.(phase := Ready, lastUsed := now, served := e.served + 1))
    case Load(m, kind, threshold, i, c, now) => LoadStep(s, m, kind, threshold, i, c, now)
    case Hatch(i, outcome) => HatchStep(names, s, i, outcome)
    case Unload(ns, _) => EvictAll(s, ns)
    case UnloadAll(now) => EvictAll(s, set m | m in s.procs && !s.eggs[s.procs[m]].Pinned(now))
    case StopAll => EvictAll(s, s.procs.Keys)
    case Fuse(i) => var s1 := Collect(s, i); SetEgg(s1, i, s1.eggs[i].(phase := Crashed))
    case ResetCrashed(m) => SetEgg(s, s.procs[m], s.eggs[s.procs[m]].(phase := Loading))
    case NoteStuck(i, now) =>
      if Current(s, i) && !s.eggs[i].Pinned(now) then SetEgg(s, i, s.eggs[i].(phase := Crashed)) else s
    case Abandon(i) => SetEgg(s, i, s.eggs[i].(phase := Crashed))
    case HardStop(i) => Collect(s, i)
    case MarkServed(i, now) => SetEgg(s, i, s.eggs[i].(lastUsed := now, served := s.eggs[i].served + 1))
    case Pin(m, until) => SetEgg(s, s.procs[m], s.eggs[s.procs[m]].(pinUntil := until))
  }

  // ---------------------------------------------------------------- what every step keeps

  /** Every running unit is the unit of an entry of the table that has not been collected. */
  ghost predicate NoOrphan<I>(s: State<I>)
    requires WellTyped(s)
  {
    forall u :: u in s.running ==> Owned(s, u)
  }

  ghost predicate Owned<I>(s: State<I>, u: Unit)
    requires WellTyped(s)
  {
    exists m :: m in s.procs && s.eggs[s.procs[m]].unit == Some(u) && !s.eggs[s.procs[m]].spent
  }

  ghost predicate AllOf<I>(s: State<I>, kind: Kind)
    requires WellTyped(s)
  {
    forall m :: m in s.procs ==> s.eggs[s.procs[m]].kind == kind
  }

  /** All residents belong to one service kind. */
  ghost predicate OneKind<I>(s: State<I>)
    requires WellTyped(s)
  {
    AllOf(s, Llama) || AllOf(s, Ds4)
  }

  ghost predicate EggOk(names: Model -> Unit, e: Egg) {
    && (e.unit.Some? ==> e.unit.value == names(e.model))
    && (e.unit.None? ==> (e.phase.Loading? || e.phase.Crashed?) && e.inflight == 0)
    && (e.phase.IdleArmed? || e.phase.Draining? ==> e.inflight == 0)
  }

  ghost predicate Inv<I>(names: Model -> Unit, s: State<I>) {
    && WellTyped(s)
    && (forall i :: i in s.eggs ==> EggOk(names, s.eggs[i]))
    && (forall i :: i in s.loads ==> i in s.eggs && s.eggs[i].unit.None?)
    && (forall k :: k in s.jobs ==> k.1 in s.eggs && s.eggs[k.1].unit.Some? && (s.jobs[k] ==> s.eggs[k.1].spent))
    && NoOrphan(s)
    && OneKind(s)
  }
}

/**
What "idle for longer than its threshold" means over a whole run: every use of an incarnation is
remembered in its activity time, no step of any thread ever moves that time back, and so the idle
sweep only picks an egg nobody used for more than its own threshold.
*/
module EggIdle {
  import opened Wrappers
  import opened EggLifecycle

  /** The clock reading an action takes, if it takes one. */
  ghost function TimeOf<I>(a: Action<I>): Option<nat> {
    match a
    case Acquire(_, _, now) => Some(now)
    case Release(_, now) => Some(now)
    case RequestModel(_, _, now) => Some(now)
    case PickExpired(_, now) => Some(now)
    case Restore(_, _, now) => Some(now)
    case Reuse(_, now) => Some(now)
    case Load(_, _, _, _, _, now) => Some(now)
    case Unload(_, now) => Some(now)
    case UnloadAll(now) => Some(now)
    case NoteStuck(_, now) => Some(now)
    case MarkServed(_, now) => Some(now)
    case _ => None
  }

  ghost predicate At<I>(a: Action<I>, now: nat) {
    TimeOf(a).Some? ==> TimeOf(a).value == now
  }

  /** `a` uses incarnation `i`: a request admitted or the last one finished, the model asked for by
      name or reused while up, or a response header received from it. */
  ghost predicate Uses<I>(s: State<I>, a: Action<I>, i: I)
    requires WellTyped(s) && Enabled(s, a)
  {
    match a
    case Acquire(m, _, _) => m in s.procs && s.procs[m] == i && s.eggs[i].Serving()
    case Release(r, _) =>
      var m := s.requests[r].0;
      m in s.procs && s.procs[m] == i && s.eggs[i].inflight <= 1 && s.eggs[i].phase.Ready?
    case RequestModel(m, Some(n), _) => n == m && s.procs[n] == i
    case Reuse(m, _) => s.procs[m] == i
    case MarkServed(j, _) => j == i
    case _ => false
  }

  /** From `s` to `t` activity times only stay or become `now`, and thresholds stay. */
  ghost predicate Ages<I>(s: State<I>, t: State<I>, now: nat) {
    && (forall i :: i in s.eggs ==> i in t.eggs && OlderOrNow(s.eggs[i], t.eggs[i], now))
    && (forall i :: i in t.eggs && i !in s.eggs ==> t.eggs[i].lastUsed == now)
  }

  ghost predicate OlderOrNow(e: Egg, f: Egg, now: nat) {
    f.threshold == e.threshold && (f.lastUsed == e.lastUsed || f.lastUsed == now)
  }

  /** Nothing about activity changes, and no incarnation is made. */
  ghost predicate SameAges<I>(s: State<I>, t: State<I>) {
    && t.eggs.Keys == s.eggs.Keys
    && forall i :: i in s.eggs ==> t.eggs[i].lastUsed == s.eggs[i].lastUsed && t.eggs[i].threshold == s.eggs[i].threshold
  }

  lemma EvictedSameAges<I>(s: State<I>, ns: set<Model>)
    requires WellTyped(s)
    ensures SameAges(s, EvictAll(s, ns))
  {
  }

  lemma MadeRoomSameAges<I>(s: State<I>, m: Model, kind: Kind, c: LoadChoice, now: nat)
    requires WellTyped(s)
    ensures SameAges(s, AfterKinds(s, m, kind, c, now))
  {
    ClearedSameAges(s, m);
    EvictedSameAges(Cleared(s, m), c.overflow);
    var s2 := AfterOverflow(s, m, c);
    EvictedSameAges(s2, OtherKinds(s2, m, kind) * EvictableNames(s2, now));
    SameAgesChain(s, Cleared(s, m), s2);
    SameAgesChain(s, s2, AfterKinds(s, m, kind, c, now));
  }

  lemma ClearedSameAges<I>(s: State<I>, m: Model)
    requires WellTyped(s)
    ensures SameAges(s, Cleared(s, m))
  {
  }

  lemma SameAgesChain<I>(s: State<I>, t: State<I>, v: State<I>)
    requires SameAges(s, t) && SameAges(t, v)
    ensures SameAges(s, v)
  {
  }

  lemma PlacedAges<I>(s: State<I>, s3: State<I>, m: Model, kind: Kind, threshold: nat, i: I, c: LoadChoice, now: nat)
    requires WellTyped(s3) && i !in s.eggs && SameAges(s, s3)
    ensures Ages(s, s3, now) && Ages(s, EvictAll(s3, c.memory), now)
    ensures Ages(s, Placed(EvictAll(s3, c.memory), m, kind, threshold, i, c, now), now)
  {
    EvictedSameAges(s3, c.memory);
    SameAgesChain(s, s3, EvictAll(s3, c.memory));
  }

  lemma LoadAges<I>(s: State<I>, m: Model, kind: Kind, threshold: nat, i: I, c: LoadChoice, now: nat)
    requires WellTyped(s) && i !in s.eggs
    ensures Ages(s, LoadStep(s, m, kind, threshold, i, c, now), now)
  {
    if Heals(s, m) {
    } else if c.refusedEarly {
      ClearedSameAges(s, m);
    } else {
      MadeRoomSameAges(s, m, kind, c, now);
      PlacedAges(s, AfterKinds(s, m, kind, c, now), m, kind, threshold, i, c, now);
    }
  }

  ghost predicate Serves<I>(a: Action<I>) {
    a.Acquire? || a.Release? || a.RequestModel?
  }

  lemma ServesAges<I>(names: Model -> Unit, s: State<I>, a: Action<I>, now: nat)
    requires WellTyped(s) && Enabled(s, a) && At(a, now) && Serves(a)
    ensures Ages(s, Apply(names, s, a), now)
  {
  }

  ghost predicate Reaps<I>(a: Action<I>) {
    a.PickExpired? || a.FindDraining? || a.StopUnit? || a.Finalize? || a.Restore?
  }

  lemma ReapsAges<I>(names: Model -> Unit, s: State<I>, a: Action<I>, now: nat)
    requires WellTyped(s) && Enabled(s, a) && At(a, now) && Reaps(a)
    ensures Ages(s, Apply(names, s, a), now)
  {
  }

  ghost predicate Clears<I>(a: Action<I>) {
    a.Unload? || a.UnloadAll? || a.StopAll?
  }

  lemma ClearsAges<I>(names: Model -> Unit, s: State<I>, a: Action<I>, now: nat)
    requires WellTyped(s) && Enabled(s, a) && At(a, now) && Clears(a)
    ensures Ages(s, Apply(names, s, a), now)
  {
    match a {
      case Unload(ns, _) => EvictedSameAges(s, ns);
      case UnloadAll(t) => EvictedSameAges(s, set m | m in s.procs && !s.eggs[s.procs[m]].Pinned(t));
      case StopAll => EvictedSameAges(s, s.procs.Keys);
    }
  }

  lemma HatchAges<I>(names: Model -> Unit, s: State<I>, i: I, o: HatchOutcome, now: nat)
    requires WellTyped(s) && i in s.eggs
    ensures Ages(s, HatchStep(names, s, i, o), now)
  {
  }

  lemma RestAges<I>(names: Model -> Unit, s: State<I>, a: Action<I>, now: nat)
    requires WellTyped(s) && Enabled(s, a) && At(a, now) && !Serves(a) && !Reaps(a) && !Clears(a) && !a.Load? && !a.Hatch?
    ensures Ages(s, Apply(names, s, a), now)
  {
  }

  lemma StepAges<I>(names: Model -> Unit, s: State<I>, a: Action<I>, now: nat)
    requires WellTyped(s) && Enabled(s, a) && At(a, now)
    ensures Ages(s, Apply(names, s, a), now)
  {
    if Serves(a) { ServesAges(names, s, a, now); }
    else if Reaps(a) { ReapsAges(names, s, a, now); }
    else if Clears(a) { ClearsAges(names, s, a, now); }
    else if a.Load? { LoadAges(s, a.model, a.kind, a.threshold, a.egg, a.choice, a.now); }
    else if a.Hatch? { HatchAges(names, s, a.egg, a.outcome, now); }
    else { RestAges(names, s, a, now); }
  }

  lemma UseRecorded<I>(names: Model -> Unit, s: State<I>, a: Action<I>, i: I, now: nat)
    requires WellTyped(s) && Enabled(s, a) && At(a, now) && i in s.eggs && Uses(s, a, i)
    ensures i in Apply(names, s, a).eggs && Apply(names, s, a).eggs[i].lastUsed == now
  {
  }

  // ------------------------------------------------------------ runs with a clock

  /** A run whose clock never goes back: `path[k]` becomes `path[k + 1]` by `acts[k]` at `clock[k]`. */
  ghost predicate TimedRun<I>(names: Model -> Unit, path: seq<State<I>>, acts: seq<Action<I>>, clock: seq<nat>) {
    && |path| == |acts| + 1 && |clock| == |acts|
    && (forall k :: 0 <= k < |acts| ==> TimedStep(names, path[k], acts[k], clock[k], path[k + 1]))
    && (forall j, k :: 0 <= j <= k < |clock| ==> clock[j] <= clock[k])
  }

  ghost predicate TimedStep<I>(names: Model -> Unit, s: State<I>, a: Action<I>, now: nat, t: State<I>) {
    WellTyped(s) && WellTyped(t) && Enabled(s, a) && At(a, now) && t == Apply(names, s, a)
  }

  /** Once used at step j, an incarnation's activity time never falls below the time of that use. */
  lemma {:induction false} UseRemembered<I>(names: Model -> Unit, path: seq<State<I>>, acts: seq<Action<I>>, clock: seq<nat>,
                                            i: I, j: nat, k: nat)
    requires TimedRun(names, path, acts, clock) && j < k <= |acts|
    requires TimedStep(names, path[j], acts[j], clock[j], path[j + 1]) && i in path[j].eggs && Uses(path[j], acts[j], i)
    ensures i in path[k].eggs && path[k].eggs[i].lastUsed >= clock[j]
    ensures path[k].eggs[i].threshold == path[j].eggs[i].threshold
    decreases k
  {
    assert TimedStep(names, path[k - 1], acts[k - 1], clock[k - 1], path[k - 1 + 1]);
    StepAges(names, path[k - 1], acts[k - 1], clock[k - 1]);
    if k == j + 1 {
      UseRecorded(names, path[j], acts[j], i, clock[j]);
    } else {
      UseRemembered(names, path, acts, clock, i, j, k - 1);
      assert OlderOrNow(path[k - 1].eggs[i], path[k].eggs[i], clock[k - 1]);
    }
  }

  /** IDLE MEANS IDLE: an egg that the sweep picks was not used, at any earlier step of the run, as
      recently as its threshold. */
  lemma PickedWasIdle<I>(names: Model -> Unit, path: seq<State<I>>, acts: seq<Action<I>>, clock: seq<nat>,
                         i: I, j: nat, k: nat)
    requires TimedRun(names, path, acts, clock) && j < k < |acts|
    requires TimedStep(names, path[j], acts[j], clock[j], path[j + 1]) && i in path[j].eggs && Uses(path[j], acts[j], i)
    requires TimedStep(names, path[k], acts[k], clock[k], path[k + 1]) && acts[k].PickExpired? && i in Winners(path[k], clock[k])
    ensures clock[k] > clock[j] + path[j].eggs[i].threshold
  {
    UseRemembered(names, path, acts, clock, i, j, k);
  }
}

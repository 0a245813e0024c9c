/** No running unit without a table entry, and one service kind at a time: kept by every step. */
module EggInvariant {
  import opened Wrappers
  import opened EggLifecycle

  lemma CollectKeeps<I>(names: Model -> Unit, s: State<I>, i: I)
    requires Inv(names, s) && i in s.eggs
    ensures Inv(names, Collect(s, i))
    ensures s.eggs[i].unit.Some? ==> Collect(s, i).eggs[i].spent
  {
    var t := Collect(s, i);
    forall u | u in t.running ensures Owned(t, u) {
      assert Owned(s, u);
      var m :| m in s.procs && s.eggs[s.procs[m]].unit == Some(u) && !s.eggs[s.procs[m]].spent;
      assert t.eggs[t.procs[m]].unit == Some(u) && !t.eggs[t.procs[m]].spent;
    }
  }

  lemma DropKeeps<I>(names: Model -> Unit, s: State<I>, m: Model)
    requires Inv(names, s)
    requires m in s.procs ==> s.eggs[s.procs[m]].unit.None? || s.eggs[s.procs[m]].spent
    ensures Inv(names, Drop(s, m))
  {
    var t := Drop(s, m);
    forall u | u in t.running ensures Owned(t, u) {
      assert Owned(s, u);
      var n :| n in s.procs && s.eggs[s.procs[n]].unit == Some(u) && !s.eggs[s.procs[n]].spent;
      assert t.eggs[t.procs[n]].unit == Some(u);
    }
  }

  /** Replacing an egg by one with the same identity, unit and spent mark. */
  lemma SetKeeps<I>(names: Model -> Unit, s: State<I>, i: I, e: Egg)
    requires Inv(names, s) && i in s.eggs && EggOk(names, e)
    requires e.model == s.eggs[i].model && e.kind == s.eggs[i].kind
    requires e.unit == s.eggs[i].unit && e.spent == s.eggs[i].spent
    ensures Inv(names, SetEgg(s, i, e))
  {
    var t := SetEgg(s, i, e);
    forall u | u in t.running ensures Owned(t, u) {
      assert Owned(s, u);
      var m :| m in s.procs && s.eggs[s.procs[m]].unit == Some(u) && !s.eggs[s.procs[m]].spent;
      assert t.eggs[t.procs[m]].unit == Some(u);
    }
  }

  lemma EvictAllKeeps<I>(names: Model -> Unit, s: State<I>, ns: set<Model>)
    requires Inv(names, s)
    ensures Inv(names, EvictAll(s, ns))
  {
    var t := EvictAll(s, ns);
    forall u | u in t.running ensures Owned(t, u) {
      assert Owned(s, u);
      var m :| m in s.procs && s.eggs[s.procs[m]].unit == Some(u) && !s.eggs[s.procs[m]].spent;
      assert m !in ns;
      assert t.eggs[t.procs[m]].unit == Some(u);
    }
  }

  lemma ClearedKeeps<I>(names: Model -> Unit, s: State<I>, m: Model)
    requires Inv(names, s)
    ensures Inv(names, Cleared(s, m)) && m !in Cleared(s, m).procs
  {
    if m in s.procs {
      CollectKeeps(names, s, s.procs[m]);
      DropKeeps(names, Collect(s, s.procs[m]), m);
    }
  }

  /** The owners of the units still running in `t` are untouched by the step from `s`. */
  lemma OwnersCarry<I>(s: State<I>, t: State<I>)
    requires WellTyped(s) && WellTyped(t) && NoOrphan(s) && t.running <= s.running
    requires forall m :: m in s.procs && s.eggs[s.procs[m]].unit.Some? && s.eggs[s.procs[m]].unit.value in t.running ==>
               m in t.procs && t.eggs[t.procs[m]].unit == s.eggs[s.procs[m]].unit
               && t.eggs[t.procs[m]].spent == s.eggs[s.procs[m]].spent
    ensures NoOrphan(t)
  {
    forall u | u in t.running ensures Owned(t, u) {
      assert Owned(s, u);
      var m :| m in s.procs && s.eggs[s.procs[m]].unit == Some(u) && !s.eggs[s.procs[m]].spent;
      assert t.eggs[t.procs[m]].unit == Some(u) && !t.eggs[t.procs[m]].spent;
    }
  }

  lemma AfterKindsKeeps<I>(names: Model -> Unit, s: State<I>, m: Model, kind: Kind, c: LoadChoice, now: nat)
    requires Inv(names, s)
    ensures Inv(names, AfterKinds(s, m, kind, c, now))
    ensures m !in AfterKinds(s, m, kind, c, now).procs
    ensures AfterKinds(s, m, kind, c, now).eggs.Keys == s.eggs.Keys
  {
    ClearedKeeps(names, s, m);
    var s2 := AfterOverflow(s, m, c);
    EvictAllKeeps(names, Cleared(s, m), c.overflow);
    EvictAllKeeps(names, s2, OtherKinds(s2, m, kind) * EvictableNames(s2, now));
  }

  lemma KindsAgree<I>(s: State<I>, m: Model, kind: Kind, ns: set<Model>)
    requires WellTyped(s) && m !in s.procs && OtherKinds(s, m, kind) == {}
    ensures AllOf(EvictAll(s, ns), kind)
  {
    forall n | n in EvictAll(s, ns).procs ensures s.eggs[s.procs[n]].kind == kind {
      assert n !in OtherKinds(s, m, kind);
    }
  }

  lemma PlacedKeeps<I>(names: Model -> Unit, s: State<I>, m: Model, kind: Kind, threshold: nat, i: I, c: LoadChoice, now: nat)
    requires Inv(names, s) && i !in s.eggs && m !in s.procs
    requires AllOf(s, kind)
    ensures Inv(names, Placed(s, m, kind, threshold, i, c, now))
  {
    OwnersCarry(s, Placed(s, m, kind, threshold, i, c, now));
    assert AllOf(Placed(s, m, kind, threshold, i, c, now), kind);
  }

  lemma LoadKeeps<I>(names: Model -> Unit, s: State<I>, m: Model, kind: Kind, threshold: nat, i: I, c: LoadChoice, now: nat)
    requires Inv(names, s) && i !in s.eggs
    ensures Inv(names, LoadStep(s, m, kind, threshold, i, c, now))
  {
    if Heals(s, m) {
      HealKeeps(names, s, m, now);
    } else if c.refusedEarly {
      ClearedKeeps(names, s, m);
    } else {
      AfterKindsKeeps(names, s, m, kind, c, now);
      AdmittedKeeps(names, AfterKinds(s, m, kind, c, now), m, kind, threshold, i, c, now);
    }
  }

  lemma HealKeeps<I>(names: Model -> Unit, s: State<I>, m: Model, now: nat)
    requires Inv(names, s) && Heals(s, m)
    ensures var e := s.eggs[s.procs[m]];
      Inv(names, SetEgg(s, s.procs[m], e.(phase := Ready, lastUsed := now, served := e.served + 1)))
  {
    var e := s.eggs[s.procs[m]];
    SetKeeps(names, s, s.procs[m], e.(phase := Ready, lastUsed := now, served := e.served + 1));
  }

  lemma AdmittedKeeps<I>(names: Model -> Unit, s: State<I>, m: Model, kind: Kind, threshold: nat, i: I, c: LoadChoice, now: nat)
    requires Inv(names, s) && i !in s.eggs && m !in s.procs
    ensures OtherKinds(s, m, kind) == {} ==> Inv(names, Placed(EvictAll(s, c.memory), m, kind, threshold, i, c, now))
    ensures Inv(names, EvictAll(s, c.memory))
  {
    EvictAllKeeps(names, s, c.memory);
    if OtherKinds(s, m, kind) == {} {
      KindsAgree(s, m, kind, c.memory);
      PlacedKeeps(names, EvictAll(s, c.memory), m, kind, threshold, i, c, now);
    }
  }

  /** A placeholder has no unit, so taking it out of the table leaves no unit behind. */
  lemma PlaceholderGone<I>(names: Model -> Unit, s: State<I>, i: I, t: State<I>)
    requires Inv(names, s) && Current(s, i) && s.eggs[i].unit.None?
    requires t.procs == s.procs - {s.eggs[i].model} && t.running <= s.running && t.jobs == s.jobs && t.loads == s.loads - {i}
    requires exists e :: EggOk(names, e) && e.model == s.eggs[i].model && t.eggs == s.eggs[i := e]
    ensures Inv(names, t)
  {
    OwnersCarry(s, t);
  }

  lemma PlaceholderUp<I>(names: Model -> Unit, s: State<I>, i: I)
    requires Inv(names, s) && Current(s, i) && i in s.loads
    ensures Inv(names, HatchStep(names, s, i, Up))
  {
    var t := HatchStep(names, s, i, Up);
    var u := names(s.eggs[i].model);
    var before := t.(running := s.running - {u});
    OwnersCarry(s, before);
    assert t.eggs[t.procs[s.eggs[i].model]].unit == Some(u);
    forall v | v in t.running ensures Owned(t, v) {
      if v != u { assert Owned(before, v); }
    }
  }

  lemma NotReadyKeeps<I>(names: Model -> Unit, s: State<I>, i: I)
    requires Inv(names, s) && i in s.loads && Current(s, i)
    ensures Inv(names, HatchStep(names, s, i, NotReady))
  {
    OwnersCarry(s, HatchStep(names, s, i, NotReady));
  }

  lemma StaleHatchKeeps<I>(names: Model -> Unit, s: State<I>, i: I)
    requires Inv(names, s) && i in s.loads
    ensures Inv(names, s.(loads := s.loads - {i}))
  {
    OwnersCarry(s, s.(loads := s.loads - {i}));
  }

  lemma HatchKeeps<I>(names: Model -> Unit, s: State<I>, i: I, o: HatchOutcome)
    requires Inv(names, s) && i in s.eggs && i in s.loads
    ensures Inv(names, HatchStep(names, s, i, o))
  {
    var t := HatchStep(names, s, i, o);
    if !Current(s, i) {
      StaleHatchKeeps(names, s, i);
    } else if o.Up? {
      PlaceholderUp(names, s, i);
    } else if o.NotReady? {
      NotReadyKeeps(names, s, i);
    } else {
      assert EggOk(names, t.eggs[i]) && t.eggs == s.eggs[i := t.eggs[i]];
      PlaceholderGone(names, s, i, t);
    }
  }

  ghost predicate RequestAction<I>(a: Action<I>) {
    a.Acquire? || a.Release? || a.RequestModel?
  }

  /** The invariant says nothing about which requests are outstanding. */
  lemma RequestsKeep<I>(names: Model -> Unit, s: State<I>, rs: map<nat, (Model, I)>)
    requires Inv(names, s)
    ensures Inv(names, s.(requests := rs))
  {
    OwnersCarry(s, s.(requests := rs));
  }

  lemma AcquireKeeps<I>(names: Model -> Unit, s: State<I>, m: Model, req: nat, now: nat)
    requires Inv(names, s)
    ensures Inv(names, AcquireStep(s, m, req, now))
  {
    if m in s.procs && s.eggs[s.procs[m]].Serving() {
      var i := s.procs[m];
      var e := s.eggs[i].(inflight := s.eggs[i].inflight + 1, lastUsed := now, phase := Ready);
      SetKeeps(names, s, i, e);
      RequestsKeep(names, SetEgg(s, i, e), s.requests[req := (m, i)]);
    }
  }

  lemma ReleaseKeeps<I>(names: Model -> Unit, s: State<I>, req: nat, now: nat)
    requires Inv(names, s) && req in s.requests
    ensures Inv(names, ReleaseStep(s, req, now))
  {
    var m := s.requests[req].0;
    RequestsKeep(names, s, s.requests - {req});
    if m in s.procs {
      SetKeeps(names, s.(requests := s.requests - {req}), s.procs[m], ReleasedEgg(s.eggs[s.procs[m]], now));
    }
  }

  lemma RequestKeeps<I>(names: Model -> Unit, s: State<I>, a: Action<I>)
    requires Inv(names, s) && Enabled(s, a) && RequestAction(a)
    ensures Inv(names, Apply(names, s, a))
  {
    match a {
      case Acquire(m, req, now) => AcquireKeeps(names, s, m, req, now);
      case Release(req, now) => ReleaseKeeps(names, s, req, now);
      case RequestModel(m, seen, now) =>
        if seen.Some? { RequestModelKeeps(names, s, m, seen.value, now); }
    }
  }

  lemma RequestModelKeeps<I>(names: Model -> Unit, s: State<I>, m: Model, n: Model, now: nat)
    requires Inv(names, s) && n in s.procs && s.eggs[s.procs[n]].Serving()
    ensures Inv(names, RequestStep(s, m, Some(n), now))
  {
    var e := s.eggs[s.procs[n]];
    if n == m { SetKeeps(names, s, s.procs[n], e.(phase := Ready, lastUsed := now)); }
    else if e.inflight == 0 && !e.Pinned(now) { SetKeeps(names, s, s.procs[n], e.(phase := Draining)); }
  }

  ghost predicate TouchAction<I>(a: Action<I>) {
    a.Reuse? || a.MarkServed? || a.Pin?
  }

  ghost function Touched<I>(s: State<I>, a: Action<I>): (r: (I, Egg))
    requires WellTyped(s) && Enabled(s, a) && TouchAction(a)
    ensures r.0 in s.eggs
  {
    match a
    case Reuse(m, now) =>
      var e := s.eggs[s.procs[m]];
      (s.procs[m], e.(phase := Ready, lastUsed := now, served := e.served + 1))
    case MarkServed(i, now) => (i, s.eggs[i].(lastUsed := now, served := s.eggs[i].served + 1))
    case Pin(m, until) => (s.procs[m], s.eggs[s.procs[m]].(pinUntil := until))
  }

  lemma TouchKeeps<I>(names: Model -> Unit, s: State<I>, a: Action<I>)
    requires Inv(names, s) && Enabled(s, a) && TouchAction(a)
    ensures Inv(names, Apply(names, s, a))
  {
    var r := Touched(s, a);
    assert Apply(names, s, a) == SetEgg(s, r.0, r.1);
    SetKeeps(names, s, r.0, r.1);
  }

  ghost predicate StopAction<I>(a: Action<I>) {
    a.PickExpired? || a.FindDraining? || a.StopUnit? || a.Finalize? || a.Restore?
  }

  lemma StopKeeps<I>(names: Model -> Unit, s: State<I>, a: Action<I>)
    requires Inv(names, s) && Enabled(s, a) && StopAction(a)
    ensures Inv(names, Apply(names, s, a))
  {
    match a {
      case PickExpired(tid, now) => PickKeeps(names, s, tid, now);
      case FindDraining(tid, n) => JobsKeep(names, s, Apply(names, s, a));
      case StopUnit(tid, i) => CollectKeeps(names, s, i); JobsKeep(names, Collect(s, i), Apply(names, s, a));
      case Finalize(tid, i) => FinalizeKeeps(names, s, tid, i);
      case Restore(tid, i, now) =>
        JobsKeep(names, s, s.(jobs := s.jobs - {(tid, i)}));
        SetIfDraining(names, s.(jobs := s.jobs - {(tid, i)}), s.eggs[i].model, now);
    }
  }

  lemma FinalizeKeeps<I>(names: Model -> Unit, s: State<I>, tid: nat, i: I)
    requires Inv(names, s) && Enabled(s, Finalize(tid, i))
    ensures Inv(names, Apply(names, s, Finalize(tid, i)))
  {
    JobsKeep(names, s, s.(jobs := s.jobs - {(tid, i)}));
    if Current(s, i) { DropKeeps(names, s.(jobs := s.jobs - {(tid, i)}), s.eggs[i].model); }
  }

  lemma SetIfDraining<I>(names: Model -> Unit, s: State<I>, m: Model, now: nat)
    requires Inv(names, s)
    ensures m in s.procs && s.eggs[s.procs[m]].phase.Draining? ==>
              Inv(names, SetEgg(s, s.procs[m], s.eggs[s.procs[m]].(phase := Ready, lastUsed := now)))
  {
    if m in s.procs && s.eggs[s.procs[m]].phase.Draining? {
      SetKeeps(names, s, s.procs[m], s.eggs[s.procs[m]].(phase := Ready, lastUsed := now));
    }
  }

  /** Changing only which threads hold stop jobs. */
  lemma JobsKeep<I>(names: Model -> Unit, s: State<I>, t: State<I>)
    requires Inv(names, s) && t == s.(jobs := t.jobs)
    requires forall k :: k in t.jobs ==> k.1 in t.eggs && t.eggs[k.1].unit.Some? && (t.jobs[k] ==> t.eggs[k.1].spent)
    ensures Inv(names, t)
  {
    OwnersCarry(s, t);
  }

  lemma PickKeeps<I>(names: Model -> Unit, s: State<I>, tid: nat, now: nat)
    requires Inv(names, s)
    ensures Inv(names, PickStep(s, tid, now))
  {
    var t := PickStep(s, tid, now);
    OwnersCarry(s, t);
  }

  ghost predicate UnloadAction<I>(a: Action<I>) {
    a.Unload? || a.UnloadAll? || a.StopAll?
  }

  lemma UnloadKeeps<I>(names: Model -> Unit, s: State<I>, a: Action<I>)
    requires Inv(names, s) && Enabled(s, a) && UnloadAction(a)
    ensures Inv(names, Apply(names, s, a))
  {
    match a {
      case Unload(ns, _) => EvictAllKeeps(names, s, ns);
      case UnloadAll(now) => EvictAllKeeps(names, s, set m | m in s.procs && !s.eggs[s.procs[m]].Pinned(now));
      case StopAll => EvictAllKeeps(names, s, s.procs.Keys);
    }
  }

  ghost predicate FailureAction<I>(a: Action<I>) {
    a.Fuse? || a.ResetCrashed? || a.NoteStuck? || a.Abandon? || a.HardStop?
  }

  lemma FailureKeeps<I>(names: Model -> Unit, s: State<I>, a: Action<I>)
    requires Inv(names, s) && Enabled(s, a) && FailureAction(a)
    ensures Inv(names, Apply(names, s, a))
  {
    match a {
      case Fuse(i) => FuseKeeps(names, s, i);
      case ResetCrashed(m) => SetKeeps(names, s, s.procs[m], s.eggs[s.procs[m]].(phase := Loading));
      case NoteStuck(i, now) => SetKeeps(names, s, i, s.eggs[i].(phase := Crashed));
      case Abandon(i) => SetKeeps(names, s, i, s.eggs[i].(phase := Crashed));
      case HardStop(i) => CollectKeeps(names, s, i);
    }
  }

  lemma FuseKeeps<I>(names: Model -> Unit, s: State<I>, i: I)
    requires Inv(names, s) && i in s.eggs
    ensures var s1 := Collect(s, i); Inv(names, SetEgg(s1, i, s1.eggs[i].(phase := Crashed)))
  {
    CollectKeeps(names, s, i);
    var s1 := Collect(s, i);
    SetKeeps(names, s1, i, s1.eggs[i].(phase := Crashed));
  }

  /** NO ORPHAN UNIT, ONE SERVICE KIND: whatever step any thread takes next, both survive it. */
  lemma StepKeeps<I>(names: Model -> Unit, s: State<I>, a: Action<I>)
    requires Inv(names, s) && Enabled(s, a)
    ensures Inv(names, Apply(names, s, a))
  {
    if RequestAction(a) { RequestKeeps(names, s, a); }
    else if TouchAction(a) { TouchKeeps(names, s, a); }
    else if StopAction(a) { StopKeeps(names, s, a); }
    else if UnloadAction(a) { UnloadKeeps(names, s, a); }
    else if FailureAction(a) { FailureKeeps(names, s, a); }
    else {
      match a {
        case Load(m, kind, threshold, i, c, now) => LoadKeeps(names, s, m, kind, threshold, i, c, now);
        case Hatch(i, o) => HatchKeeps(names, s, i, o);
      }
    }
  }
}

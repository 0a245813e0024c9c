/**
In-flight accounting: when the counter of a model equals its outstanding requests, which steps keep
that, and which stop can cut a request off.
*/
module EggAccounting {
  import opened EggLifecycle
  import EggInvariant

  ghost function RequestsOf<I>(s: State<I>, m: Model): set<nat> {
    set r | r in s.requests && s.requests[r].0 == m
  }

  /** Counters are exact, and every outstanding request was counted on the current incarnation. */
  ghost predicate Accounted<I>(s: State<I>)
    requires WellTyped(s)
  {
    && (forall m :: m in s.procs ==> s.eggs[s.procs[m]].inflight == |RequestsOf(s, m)|)
    && (forall r :: r in s.requests ==> Holds(s, s.requests[r].0, s.requests[r].1))
  }

  ghost predicate Holds<I>(s: State<I>, m: Model, i: I) {
    m in s.procs && s.procs[m] == i
  }

  /** No entry with requests in flight leaves the table (or is replaced) from `s` to `t`. */
  ghost predicate BusyKept<I>(s: State<I>, t: State<I>)
    requires WellTyped(s)
  {
    forall m :: m in s.procs && s.eggs[s.procs[m]].inflight > 0 ==> Holds(t, m, s.procs[m])
  }

  ghost predicate SameCount<I>(s: State<I>, t: State<I>) {
    && t.requests == s.requests
    && forall i :: i in s.eggs ==> i in t.eggs && t.eggs[i].inflight == s.eggs[i].inflight
  }

  ghost predicate OnlyFreshEntries<I>(s: State<I>, t: State<I>)
    requires WellTyped(t)
  {
    forall m :: m in t.procs ==>
      Holds(s, m, t.procs[m]) || (t.procs[m] !in s.eggs && t.eggs[t.procs[m]].inflight == 0)
  }

  ghost predicate Frame<I>(s: State<I>, t: State<I>) {
    WellTyped(t) && SameCount(s, t) && OnlyFreshEntries(s, t)
  }

  // ------------------------------------------------------------ steps that count nothing

  /** A step that counts nothing keeps the accounts exactly when it removes no busy entry. */
  lemma QuietStep<I>(s: State<I>, t: State<I>)
    requires WellTyped(s) && Accounted(s) && Frame(s, t)
    ensures Accounted(t) <==> BusyKept(s, t)
  {
    forall m ensures RequestsOf(t, m) == RequestsOf(s, m) {}
    if BusyKept(s, t) {
      forall r | r in t.requests ensures Holds(t, t.requests[r].0, t.requests[r].1) {
        var m := t.requests[r].0;
        assert Holds(s, m, s.requests[r].1);
        assert r in RequestsOf(s, m);
      }
      forall m | m in t.procs ensures t.eggs[t.procs[m]].inflight == |RequestsOf(t, m)| {
        if !Holds(s, m, t.procs[m]) { NoRequests(s, t, m); }
      }
    }
    if Accounted(t) {
      forall m | m in s.procs && s.eggs[s.procs[m]].inflight > 0 ensures Holds(t, m, s.procs[m]) {
        assert |RequestsOf(s, m)| > 0;
        var r :| r in RequestsOf(s, m);
        assert Holds(t, t.requests[r].0, t.requests[r].1);
        assert Holds(s, s.requests[r].0, s.requests[r].1);
      }
    }
  }

  lemma NoRequests<I>(s: State<I>, t: State<I>, m: Model)
    requires WellTyped(s) && WellTyped(t) && Accounted(s) && BusyKept(s, t)
    requires m in t.procs && !Holds(s, m, t.procs[m])
    ensures RequestsOf(s, m) == {}
  {
    assert forall r :: r in RequestsOf(s, m) ==> r in s.requests && Holds(s, s.requests[r].0, s.requests[r].1);
    assert RequestsOf(s, m) != {} ==> m in s.procs && |RequestsOf(s, m)| > 0;
  }

  ghost predicate Counts<I>(a: Action<I>) {
    a.Acquire? || a.Release?
  }

  /** A step that only takes entries away and counts nothing. */
  ghost predicate Shrinks<I>(s: State<I>, t: State<I>)
    requires WellTyped(s)
  {
    && WellTyped(t) && SameCount(s, t) && t.eggs.Keys == s.eggs.Keys
    && forall m :: m in t.procs ==> Holds(s, m, t.procs[m])
  }

  lemma EvictAllShrinks<I>(s: State<I>, ns: set<Model>)
    requires WellTyped(s)
    ensures Shrinks(s, EvictAll(s, ns))
  {
  }

  lemma ClearedShrinks<I>(s: State<I>, m: Model)
    requires WellTyped(s)
    ensures Shrinks(s, Cleared(s, m))
  {
  }

  lemma ShrinksAgain<I>(s: State<I>, t: State<I>, v: State<I>)
    requires WellTyped(s) && Shrinks(s, t) && Shrinks(t, v)
    ensures Shrinks(s, v)
  {
    assert forall m :: m in v.procs ==> Holds(t, m, v.procs[m]);
  }

  lemma AfterKindsShrinks<I>(s: State<I>, m: Model, kind: Kind, c: LoadChoice, now: nat)
    requires WellTyped(s)
    ensures Shrinks(s, AfterKinds(s, m, kind, c, now))
  {
    ClearedShrinks(s, m);
    EvictAllShrinks(Cleared(s, m), c.overflow);
    var s2 := AfterOverflow(s, m, c);
    ShrinksAgain(s, Cleared(s, m), s2);
    EvictAllShrinks(s2, OtherKinds(s2, m, kind) * EvictableNames(s2, now));
    ShrinksAgain(s, s2, AfterKinds(s, m, kind, c, now));
  }

  lemma ShrinksFrame<I>(s: State<I>, t: State<I>)
    requires WellTyped(s) && Shrinks(s, t)
    ensures Frame(s, t)
  {
  }

  lemma SetFrame<I>(s: State<I>, i: I, e: Egg)
    requires WellTyped(s) && i in s.eggs && e.model == s.eggs[i].model && e.inflight == s.eggs[i].inflight
    ensures Frame(s, SetEgg(s, i, e))
  {
  }

  lemma PlacedFrame<I>(s: State<I>, s4: State<I>, m: Model, kind: Kind, threshold: nat, i: I, c: LoadChoice, now: nat)
    requires WellTyped(s) && i !in s.eggs && Shrinks(s, s4)
    ensures Frame(s, Placed(s4, m, kind, threshold, i, c, now))
  {
  }

  lemma LoadFrame<I>(s: State<I>, m: Model, kind: Kind, threshold: nat, i: I, c: LoadChoice, now: nat)
    requires WellTyped(s) && i !in s.eggs
    ensures Frame(s, LoadStep(s, m, kind, threshold, i, c, now))
  {
    if Heals(s, m) {
      var e := s.eggs[s.procs[m]];
      SetFrame(s, s.procs[m], e.(phase := Ready, lastUsed := now, served := e.served + 1));
    } else if c.refusedEarly {
      ClearedShrinks(s, m);
      ShrinksFrame(s, Cleared(s, m));
    } else {
      AfterKindsShrinks(s, m, kind, c, now);
      AdmittedFrame(s, AfterKinds(s, m, kind, c, now), m, kind, threshold, i, c, now);
    }
  }

  lemma AdmittedFrame<I>(s: State<I>, s3: State<I>, m: Model, kind: Kind, threshold: nat, i: I, c: LoadChoice, now: nat)
    requires WellTyped(s) && i !in s.eggs && Shrinks(s, s3)
    ensures Frame(s, s3) && Frame(s, EvictAll(s3, c.memory))
    ensures Frame(s, Placed(EvictAll(s3, c.memory), m, kind, threshold, i, c, now))
  {
    EvictAllShrinks(s3, c.memory);
    ShrinksAgain(s, s3, EvictAll(s3, c.memory));
    ShrinksFrame(s, s3);
    ShrinksFrame(s, EvictAll(s3, c.memory));
    PlacedFrame(s, EvictAll(s3, c.memory), m, kind, threshold, i, c, now);
  }

  lemma HatchFrame<I>(names: Model -> Unit, s: State<I>, i: I, o: HatchOutcome)
    requires WellTyped(s) && i in s.eggs
    ensures Frame(s, HatchStep(names, s, i, o))
  {
  }

  ghost predicate Bulk<I>(a: Action<I>) {
    a.Load? || a.Hatch? || a.Unload? || a.UnloadAll? || a.StopAll? || a.PickExpired?
  }

  lemma BulkFrame<I>(names: Model -> Unit, s: State<I>, a: Action<I>)
    requires WellTyped(s) && Enabled(s, a) && Bulk(a)
    ensures Frame(s, Apply(names, s, a))
  {
    match a {
      case Load(m, kind, threshold, i, c, now) => LoadFrame(s, m, kind, threshold, i, c, now);
      case Hatch(i, o) => HatchFrame(names, s, i, o);
      case Unload(ns, _) => EvictAllShrinks(s, ns); ShrinksFrame(s, EvictAll(s, ns));
      case UnloadAll(now) =>
        var ns := set m | m in s.procs && !s.eggs[s.procs[m]].Pinned(now);
        EvictAllShrinks(s, ns); ShrinksFrame(s, EvictAll(s, ns));
      case StopAll => EvictAllShrinks(s, s.procs.Keys); ShrinksFrame(s, EvictAll(s, s.procs.Keys));
      case PickExpired(tid, now) => PickFrame(s, tid, now);
    }
  }

  lemma PickFrame<I>(s: State<I>, tid: nat, now: nat)
    requires WellTyped(s)
    ensures Frame(s, PickStep(s, tid, now))
  {
  }

  ghost predicate Holding<I>(a: Action<I>) {
    a.FindDraining? || a.StopUnit? || a.Finalize?
  }

  lemma HoldingFrame<I>(names: Model -> Unit, s: State<I>, a: Action<I>)
    requires WellTyped(s) && Enabled(s, a) && Holding(a)
    ensures Frame(s, Apply(names, s, a))
  {
    var t := Apply(names, s, a);
    assert t.procs.Keys <= s.procs.Keys && t.eggs.Keys == s.eggs.Keys;
  }

  ghost predicate Deciding<I>(a: Action<I>) {
    a.Restore? || a.RequestModel?
  }

  lemma DecidingFrame<I>(names: Model -> Unit, s: State<I>, a: Action<I>)
    requires WellTyped(s) && Enabled(s, a) && Deciding(a)
    ensures Frame(s, Apply(names, s, a))
  {
    var t := Apply(names, s, a);
    assert t.procs == s.procs && t.eggs.Keys == s.eggs.Keys;
  }

  ghost predicate Failing<I>(a: Action<I>) {
    a.ResetCrashed? || a.NoteStuck? || a.Abandon?
  }

  lemma CollectFrame<I>(names: Model -> Unit, s: State<I>, a: Action<I>)
    requires WellTyped(s) && Enabled(s, a) && (a.Fuse? || a.HardStop?)
    ensures Frame(s, Apply(names, s, a))
  {
    var t := Apply(names, s, a);
    assert t.procs == s.procs && t.eggs.Keys == s.eggs.Keys;
  }

  lemma FailingFrame<I>(names: Model -> Unit, s: State<I>, a: Action<I>)
    requires WellTyped(s) && Enabled(s, a) && Failing(a)
    ensures Frame(s, Apply(names, s, a))
  {
    var t := Apply(names, s, a);
    assert t.procs == s.procs && t.eggs.Keys == s.eggs.Keys;
  }

  lemma TouchFrame<I>(names: Model -> Unit, s: State<I>, a: Action<I>)
    requires WellTyped(s) && Enabled(s, a) && (a.Reuse? || a.MarkServed? || a.Pin?)
    ensures Frame(s, Apply(names, s, a))
  {
    var t := Apply(names, s, a);
    assert t.procs == s.procs && t.eggs.Keys == s.eggs.Keys;
  }

  lemma QuietFrame<I>(names: Model -> Unit, s: State<I>, a: Action<I>)
    requires WellTyped(s) && Enabled(s, a) && !Counts(a)
    ensures Frame(s, Apply(names, s, a))
  {
    if Bulk(a) { BulkFrame(names, s, a); }
    else if Holding(a) { HoldingFrame(names, s, a); }
    else if Deciding(a) { DecidingFrame(names, s, a); }
    else if a.Fuse? || a.HardStop? { CollectFrame(names, s, a); }
    else if Failing(a) { FailingFrame(names, s, a); }
    else { TouchFrame(names, s, a); }
  }

  // ------------------------------------------------------------ steps that count

  lemma RequestAdded<I>(s: State<I>, t: State<I>, req: nat, m: Model)
    requires req !in s.requests && req in t.requests && t.requests[req].0 == m && s.requests == t.requests - {req}
    ensures |RequestsOf(t, m)| == |RequestsOf(s, m)| + 1
    ensures forall n :: n != m ==> RequestsOf(t, n) == RequestsOf(s, n)
  {
    assert RequestsOf(t, m) == RequestsOf(s, m) + {req};
    forall n | n != m ensures RequestsOf(t, n) == RequestsOf(s, n) {}
  }

  lemma AcquireAccounting<I>(s: State<I>, m: Model, req: nat, now: nat)
    requires WellTyped(s) && Accounted(s) && req !in s.requests
    ensures var t := AcquireStep(s, m, req, now); WellTyped(t) && Accounted(t) && BusyKept(s, t)
  {
    var t := AcquireStep(s, m, req, now);
    if t != s {
      RequestAdded(s, t, req, m);
      forall r | r in t.requests && r != req ensures Holds(t, t.requests[r].0, t.requests[r].1) {
        assert Holds(s, s.requests[r].0, s.requests[r].1);
      }
    }
  }

  lemma ReleaseAccounting<I>(s: State<I>, req: nat, now: nat)
    requires WellTyped(s) && Accounted(s) && req in s.requests
    ensures var t := ReleaseStep(s, req, now); WellTyped(t) && Accounted(t) && BusyKept(s, t)
  {
    var t := ReleaseStep(s, req, now);
    assert Holds(s, s.requests[req].0, s.requests[req].1);
    RequestAdded(t, s, req, s.requests[req].0);
    forall r | r in t.requests ensures Holds(t, t.requests[r].0, t.requests[r].1) {
      assert Holds(s, s.requests[r].0, s.requests[r].1);
    }
  }

  /** EXACT ACCOUNTING: any step of any thread keeps the counters equal to the outstanding requests
      if and only if it takes no entry with requests in flight out of the table. */
  lemma StepAccounting<I>(names: Model -> Unit, s: State<I>, a: Action<I>)
    requires WellTyped(s) && Accounted(s) && Enabled(s, a)
    ensures WellTyped(Apply(names, s, a))
    ensures Accounted(Apply(names, s, a)) <==> BusyKept(s, Apply(names, s, a))
  {
    match a {
      case Acquire(m, req, now) => AcquireAccounting(s, m, req, now);
      case Release(req, now) => ReleaseAccounting(s, req, now);
      case _ => QuietAccounting(names, s, a);
    }
  }

  lemma QuietAccounting<I>(names: Model -> Unit, s: State<I>, a: Action<I>)
    requires WellTyped(s) && Accounted(s) && Enabled(s, a) && !Counts(a)
    ensures WellTyped(Apply(names, s, a))
    ensures Accounted(Apply(names, s, a)) <==> BusyKept(s, Apply(names, s, a))
  {
    QuietFrame(names, s, a);
    QuietStep(s, Apply(names, s, a));
  }

  // ------------------------------------------------------------ read off the state before the step

  /** The entries one load takes out: its own unless it is healed, the overflow set, the evictable
      residents of another kind, and, when none of that kind is left to block it, the memory set. */
  ghost function TakenByLoad<I>(s: State<I>, m: Model, kind: Kind, c: LoadChoice, now: nat): set<Model>
    requires WellTyped(s)
  {
    if Heals(s, m) then {}
    else
      var own := if m in s.procs then {m} else {};
      if c.refusedEarly then own
      else
        var others := OtherKinds(s, m, kind) - c.overflow;
        var room := own + c.overflow + others * EvictableNames(s, now);
        if others <= EvictableNames(s, now) then room + c.memory else room
  }

  /** The entries a step takes out of the table, by the state before it. */
  ghost function Removed<I>(s: State<I>, a: Action<I>): set<Model>
    requires WellTyped(s) && Enabled(s, a)
  {
    match a
    case Load(m, kind, _, _, c, now) => TakenByLoad(s, m, kind, c, now)
    case Unload(ns, _) => ns
    case UnloadAll(now) => set m | m in s.procs && !s.eggs[s.procs[m]].Pinned(now)
    case StopAll => s.procs.Keys
    case Finalize(_, i) => if Current(s, i) then {s.eggs[i].model} else {}
    case Hatch(i, o) => if Current(s, i) && !o.Up? && !o.NotReady? then {s.eggs[i].model} else {}
    case _ => {}
  }

  /** None of the named entries has a request in flight. */
  ghost predicate AllIdle<I>(s: State<I>, ns: set<Model>)
    requires WellTyped(s)
  {
    forall m :: m in ns && m in s.procs ==> s.eggs[s.procs[m]].inflight == 0
  }

  /** Exactly the entries `ns` have left the table (or been replaced) from `s` to `t`. */
  ghost predicate Leave<I>(s: State<I>, t: State<I>, ns: set<Model>) {
    forall m :: m in s.procs ==> (Holds(t, m, s.procs[m]) <==> m !in ns)
  }

  lemma LeaveBusy<I>(s: State<I>, t: State<I>, ns: set<Model>)
    requires WellTyped(s) && Leave(s, t, ns)
    ensures BusyKept(s, t) <==> AllIdle(s, ns)
  {
  }

  lemma EvictAllLeave<I>(s: State<I>, ns: set<Model>)
    requires WellTyped(s)
    ensures Leave(s, EvictAll(s, ns), ns)
  {
  }

  /** Making room looks at the eggs, and evicting marks them without changing who may be evicted. */
  lemma RoomTaken<I>(s: State<I>, m: Model, kind: Kind, c: LoadChoice, now: nat)
    requires WellTyped(s) && c.overflow <= EvictableNames(Cleared(s, m), now)
    ensures var s3, others := AfterKinds(s, m, kind, c, now), OtherKinds(s, m, kind) - c.overflow;
      && s3.procs == s.procs - ({m} + c.overflow + others * EvictableNames(s, now))
      && OtherKinds(s3, m, kind) == others - EvictableNames(s, now)
  {
    var s2 := AfterOverflow(s, m, c);
    OverflowTaken(s, m, c);
    OthersLeft(s, s2, m, kind, c.overflow, now);
    KindsTaken(s, s2, m, kind, OtherKinds(s2, m, kind) * EvictableNames(s2, now), OtherKinds(s2, m, kind), now);
  }

  lemma OthersLeft<I>(s: State<I>, s2: State<I>, m: Model, kind: Kind, gone: set<Model>, now: nat)
    requires WellTyped(s) && WellTyped(s2) && SameKinds(s, s2) && s2.procs == s.procs - ({m} + gone)
    ensures OtherKinds(s2, m, kind) == OtherKinds(s, m, kind) - gone
    ensures OtherKinds(s2, m, kind) * EvictableNames(s2, now) == OtherKinds(s2, m, kind) * EvictableNames(s, now)
  {
  }

  lemma KindsTaken<I>(s: State<I>, s2: State<I>, m: Model, kind: Kind, ns: set<Model>, others: set<Model>, now: nat)
    requires WellTyped(s) && WellTyped(s2) && SameKinds(s, s2)
    requires OtherKinds(s2, m, kind) == others && ns == others * EvictableNames(s, now)
    ensures EvictAll(s2, ns).procs == s2.procs - ns
    ensures OtherKinds(EvictAll(s2, ns), m, kind) == others - EvictableNames(s, now)
  {
    var s3 := EvictAll(s2, ns);
    forall n ensures n in OtherKinds(s3, m, kind) <==> n in others && n !in EvictableNames(s, now) {}
  }

  /** Entries stay what they were, as far as the admission tests can see. */
  ghost predicate SameKinds<I>(s: State<I>, t: State<I>)
    requires WellTyped(s) && WellTyped(t)
  {
    && t.procs.Keys <= s.procs.Keys
    && (forall n :: n in t.procs ==> s.procs[n] == t.procs[n] && t.eggs[t.procs[n]].kind == s.eggs[s.procs[n]].kind)
    && (forall n, now :: n in t.procs ==> t.eggs[t.procs[n]].Evictable(now) == s.eggs[s.procs[n]].Evictable(now))
  }

  lemma OverflowTaken<I>(s: State<I>, m: Model, c: LoadChoice)
    requires WellTyped(s)
    ensures AfterOverflow(s, m, c).procs == s.procs - ({m} + c.overflow)
    ensures SameKinds(s, AfterOverflow(s, m, c))
  {
    var t := Cleared(s, m);
    ClearedKinds(s, m);
    EvictedKinds(t, c.overflow);
    assert s.procs - {m} - c.overflow == s.procs - ({m} + c.overflow);
    KindsChain(s, t, EvictAll(t, c.overflow));
  }

  lemma ClearedKinds<I>(s: State<I>, m: Model)
    requires WellTyped(s)
    ensures WellTyped(Cleared(s, m)) && Cleared(s, m).procs == s.procs - {m} && SameKinds(s, Cleared(s, m))
  {
  }

  lemma EvictedKinds<I>(s: State<I>, ns: set<Model>)
    requires WellTyped(s)
    ensures WellTyped(EvictAll(s, ns)) && EvictAll(s, ns).procs == s.procs - ns && SameKinds(s, EvictAll(s, ns))
  {
  }

  lemma KindsChain<I>(s: State<I>, t: State<I>, v: State<I>)
    requires WellTyped(s) && WellTyped(t) && WellTyped(v) && SameKinds(s, t) && SameKinds(t, v)
    ensures SameKinds(s, v)
  {
  }

  lemma LoadLeaves<I>(names: Model -> Unit, s: State<I>, a: Action<I>)
    requires WellTyped(s) && Enabled(s, a) && a.Load?
    ensures Leave(s, Apply(names, s, a), Removed(s, a))
  {
    var (m, kind, c, now) := (a.model, a.kind, a.choice, a.now);
    if !Heals(s, m) && !c.refusedEarly {
      RoomTaken(s, m, kind, c, now);
      var s3 := AfterKinds(s, m, kind, c, now);
      var others := OtherKinds(s, m, kind) - c.overflow;
      assert OtherKinds(s3, m, kind) == {} <==> others <= EvictableNames(s, now);
      AdmittedLeave(s, s3, a);
    }
  }

  lemma AdmittedLeave<I>(s: State<I>, s3: State<I>, a: Action<I>)
    requires WellTyped(s) && WellTyped(s3) && a.Load? && a.egg !in s.eggs && s3.procs.Keys <= s.procs.Keys
    requires forall n :: n in s3.procs ==> n != a.model && s3.procs[n] == s.procs[n]
    ensures forall n :: n in s.procs && n != a.model ==>
      var s4 := EvictAll(s3, a.choice.memory);
      && (Holds(s4, n, s.procs[n]) <==> n in s3.procs && n !in a.choice.memory)
      && (Holds(Placed(s4, a.model, a.kind, a.threshold, a.egg, a.choice, a.now), n, s.procs[n]) <==>
            n in s3.procs && n !in a.choice.memory)
    ensures a.model in s.procs ==>
      var s4 := EvictAll(s3, a.choice.memory);
      && !Holds(s4, a.model, s.procs[a.model])
      && !Holds(Placed(s4, a.model, a.kind, a.threshold, a.egg, a.choice, a.now), a.model, s.procs[a.model])
  {
  }

  lemma StepLeaves<I>(names: Model -> Unit, s: State<I>, a: Action<I>)
    requires WellTyped(s) && Enabled(s, a)
    ensures Leave(s, Apply(names, s, a), Removed(s, a))
  {
    match a {
      case Load(_, _, _, _, _, _) => LoadLeaves(names, s, a);
      case Hatch(i, o) => HatchLeaves(names, s, i, o);
      case Unload(_, _) => EvictedLeave(names, s, a);
      case UnloadAll(_) => EvictedLeave(names, s, a);
      case StopAll => EvictedLeave(names, s, a);
      case Finalize(tid, i) => FinalizeLeaves(names, s, tid, i);
      case _ => NobodyLeaves(names, s, a);
    }
  }

  lemma EvictedLeave<I>(names: Model -> Unit, s: State<I>, a: Action<I>)
    requires WellTyped(s) && Enabled(s, a) && (a.Unload? || a.UnloadAll? || a.StopAll?)
    ensures Leave(s, Apply(names, s, a), Removed(s, a))
  {
    EvictAllLeave(s, Removed(s, a));
  }

  lemma FinalizeLeaves<I>(names: Model -> Unit, s: State<I>, tid: nat, i: I)
    requires WellTyped(s) && Enabled(s, Finalize(tid, i))
    ensures Leave(s, Apply(names, s, Finalize(tid, i)), Removed(s, Finalize(tid, i)))
  {
  }

  lemma NobodyLeaves<I>(names: Model -> Unit, s: State<I>, a: Action<I>)
    requires WellTyped(s) && Enabled(s, a)
    requires !a.Load? && !a.Hatch? && !a.Unload? && !a.UnloadAll? && !a.StopAll? && !a.Finalize?
    ensures Leave(s, Apply(names, s, a), {})
  {
    assert Apply(names, s, a).procs == s.procs;
  }

  lemma HatchLeaves<I>(names: Model -> Unit, s: State<I>, i: I, o: HatchOutcome)
    requires WellTyped(s) && Enabled(s, Hatch(i, o))
    ensures Leave(s, HatchStep(names, s, i, o), Removed(s, Hatch(i, o)))
  {
  }

  /** EXACT ACCOUNTING, before the step: the counters stay equal to the outstanding requests if and only
      if none of the entries the step takes out has a request in flight. */
  lemma RemovalAccounting<I>(names: Model -> Unit, s: State<I>, a: Action<I>)
    requires WellTyped(s) && Accounted(s) && Enabled(s, a)
    ensures WellTyped(Apply(names, s, a))
    ensures Accounted(Apply(names, s, a)) <==> AllIdle(s, Removed(s, a))
  {
    StepAccounting(names, s, a);
    StepLeaves(names, s, a);
    LeaveBusy(s, Apply(names, s, a), Removed(s, a));
  }

  /** One load loses count exactly when an entry it takes out is busy: its own (unless healed), one of
      the overflow set, an evictable one of another kind, or, unless the load is blocked, one of the
      memory set. */
  lemma LoadAccounting<I>(names: Model -> Unit, s: State<I>, m: Model, kind: Kind, threshold: nat, i: I, c: LoadChoice, now: nat)
    requires WellTyped(s) && Accounted(s) && Enabled(s, Load(m, kind, threshold, i, c, now))
    ensures var t := LoadStep(s, m, kind, threshold, i, c, now);
      WellTyped(t) && (Accounted(t) <==> AllIdle(s, TakenByLoad(s, m, kind, c, now)))
  {
    RemovalAccounting(names, s, Load(m, kind, threshold, i, c, now));
  }

  /** A full unload loses count exactly when something unpinned is busy. */
  lemma UnloadAllAccounting<I>(names: Model -> Unit, s: State<I>, now: nat)
    requires WellTyped(s) && Accounted(s)
    ensures var t := Apply(names, s, UnloadAll(now));
      WellTyped(t) && (Accounted(t) <==>
        forall m :: m in s.procs && s.eggs[s.procs[m]].inflight > 0 ==> s.eggs[s.procs[m]].Pinned(now))
  {
    RemovalAccounting(names, s, UnloadAll(now));
  }

  /** Stopping everything loses count exactly when something is busy. */
  lemma StopAllAccounting<I>(names: Model -> Unit, s: State<I>)
    requires WellTyped(s) && Accounted(s)
    ensures var t := Apply(names, s, StopAll);
      WellTyped(t) && (Accounted(t) <==> forall m :: m in s.procs ==> s.eggs[s.procs[m]].inflight == 0)
  {
    RemovalAccounting(names, s, StopAll);
  }

  /** A targeted unload loses count exactly when a named egg is busy; its own admission test (nothing
      served yet) does not look at that. */
  lemma UnloadAccounting<I>(names: Model -> Unit, s: State<I>, ns: set<Model>, now: nat)
    requires WellTyped(s) && Accounted(s) && Enabled(s, Unload(ns, now))
    ensures WellTyped(EvictAll(s, ns))
    ensures Accounted(EvictAll(s, ns)) <==> forall m :: m in ns ==> s.eggs[s.procs[m]].inflight == 0
  {
    RemovalAccounting(names, s, Unload(ns, now));
  }

  /** Ending a held stop loses count exactly when it removes a busy entry. */
  lemma FinalizeAccounting<I>(names: Model -> Unit, s: State<I>, tid: nat, i: I)
    requires WellTyped(s) && Accounted(s) && Enabled(s, Finalize(tid, i))
    ensures WellTyped(Apply(names, s, Finalize(tid, i)))
    ensures Accounted(Apply(names, s, Finalize(tid, i))) <==> !(Current(s, i) && s.eggs[i].inflight > 0)
  {
    RemovalAccounting(names, s, Finalize(tid, i));
  }
}

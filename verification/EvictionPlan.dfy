/** The planners that turn the ranking into a list of targets, and why they agree. */
module EvictionPlan {
  import opened Wrappers
  import opened Resources

  function Sum(es: seq<Entry>): real {
    if es == [] then 0.0 else es[0].Occupied() + Sum(es[1..])
  }

  /** From the front, until what was taken reaches the need. */
  function Take(es: seq<Entry>, need: real): seq<Entry> {
    if es == [] then []
    else if es[0].Occupied() >= need then [es[0]]
    else [es[0]] + Take(es[1..], need - es[0].Occupied())
  }

  function Targets(es: seq<Entry>): seq<string> {
    if es == [] then [] else [es[0].Target()] + Targets(es[1..])
  }

  /** The shortest prefix that reaches the need, or everything if nothing does. */
  lemma {:induction false} TakeIsShortest(es: seq<Entry>, need: real)
    ensures |Take(es, need)| <= |es| && Take(es, need) == es[..|Take(es, need)|]
    ensures Sum(Take(es, need)) >= need || Take(es, need) == es
    ensures forall j :: 0 < j < |Take(es, need)| ==> Sum(es[..j]) < need
  {
    if es != [] && es[0].Occupied() < need {
      var rest := need - es[0].Occupied();
      TakeIsShortest(es[1..], rest);
      assert es == [es[0]] + es[1..];
      forall j | 0 < j < |Take(es, need)| ensures Sum(es[..j]) < need {
        assert es[..j] == [es[0]] + es[1..][..j - 1];
        if j > 1 { assert Sum(es[1..][..j - 1]) < rest; } else { assert es[1..][..0] == []; }
      }
    }
  }

  // ------------------------------------------------------------ what each planner returns

  /** The resident a key finds: the first one reported under it. */
  function Under(es: seq<Entry>, e: Entry): (r: Entry)
    ensures r.Key() == e.Key() && (e in es ==> r in es)
  {
    if es == [] then e else if es[0].Key() == e.Key() then es[0] else Under(es[1..], e)
  }

  /** The targets of a plan, looked up under the residents' keys. */
  function Names(es: seq<Entry>, plan: seq<Entry>): seq<string> {
    if plan == [] then [] else [Under(es, plan[0]).Target()] + Names(es, plan[1..])
  }

  /** Each entry of a plan as its key finds it. */
  function Firsts(es: seq<Entry>, plan: seq<Entry>): seq<Entry> {
    if plan == [] then [] else [Under(es, plan[0])] + Firsts(es, plan[1..])
  }

  /** EvictToFree: names from the lookup, sizes from the ranking. */
  function ToFree(es: seq<Entry>, need: real): seq<string> {
    if need <= 0.0 then [] else Names(es, Take(Filter(ADDRESSABLE, Ranking(es)), need))
  }

  /** EvictPlanForAction: everything from the lookup. */
  function ForAction(es: seq<Entry>, need: real): seq<string> {
    if need <= 0.0 then [] else Targets(Take(Filter(ACTIONABLE, Firsts(es, Ranking(es))), need))
  }

  // ------------------------------------------------------------ what the lookup finds

  predicate NulFree(es: seq<Entry>) {
    forall e :: e in es ==> '\0' !in e.digest && '\0' !in e.alias
  }

  /** Every resident's key finds a resident of its own name. */
  ghost predicate OwnNames(es: seq<Entry>) {
    forall e :: e in es ==> Under(es, e).Target() == e.Target()
  }

  /** Only a resident without a name has the bare separator for its key, so the lookup never changes
      whether a resident can be addressed. */
  lemma UnderAddressable(es: seq<Entry>, e: Entry)
    ensures Under(es, e).Addressable() <==> e.Addressable()
  {
    NamelessKey(e);
    NamelessKey(Under(es, e));
  }

  lemma NamelessKey(e: Entry)
    ensures |e.Key()| == |e.digest| + 1 + |e.alias|
    ensures e.Addressable() <==> |e.Key()| > 1
  {
  }

  lemma {:induction false} SplitKey(d: string, a: string, d': string, a': string)
    requires '\0' !in d && '\0' !in d' && d + "\0" + a == d' + "\0" + a'
    ensures d == d' && a == a'
  {
    var k, k' := d + "\0" + a, d' + "\0" + a';
    if d == "" || d' == "" {
      assert d == "" ==> k[0] == '\0';
      assert d' == "" ==> k'[0] == '\0';
      assert d == d' == "";
      assert k[1..] == a && k'[1..] == a';
    } else {
      assert k[0] == d[0] && k'[0] == d'[0];
      assert k[1..] == d[1..] + "\0" + a && k'[1..] == d'[1..] + "\0" + a';
      SplitKey(d[1..], a, d'[1..], a');
      assert d == [d[0]] + d[1..] && d' == [d'[0]] + d'[1..];
    }
  }

  /** Without NULs in names the lookup finds the resident's own name, also among residents alike. */
  lemma NulFreeNames(es: seq<Entry>)
    requires NulFree(es)
    ensures OwnNames(es)
  {
    forall e | e in es ensures Under(es, e).Target() == e.Target() {
      var r := Under(es, e);
      SplitKey(r.digest, r.alias, e.digest, e.alias);
    }
  }

  lemma {:induction false} UnderItself(es: seq<Entry>, e: Entry)
    requires UniqueKeys(es) && e in es
    ensures Under(es, e) == e
  {
    if es[0] != e {
      assert e in es[1..];
      var k :| 0 <= k < |es| && es[k] == e;
      assert es[0].Key() != es[k].Key();
      UnderItself(es[1..], e);
    }
  }

  lemma {:induction false} FirstsThemselves(es: seq<Entry>, plan: seq<Entry>)
    requires UniqueKeys(es) && forall e :: e in plan ==> e in es
    ensures Firsts(es, plan) == plan
  {
    if plan != [] {
      UnderItself(es, plan[0]);
      FirstsThemselves(es, plan[1..]);
    }
  }

  lemma {:induction false} NamesOwn(es: seq<Entry>, plan: seq<Entry>)
    requires OwnNames(es) && forall e :: e in plan ==> e in es
    ensures Names(es, plan) == Targets(plan)
  {
    if plan != [] {
      assert plan[0] in es;
      NamesOwn(es, plan[1..]);
    }
  }

  lemma TakenFrom(es: seq<Entry>, need: real)
    ensures forall e :: e in Take(Filter(ADDRESSABLE, Ranking(es)), need) ==> e in es && !e.Protected() && e.Addressable()
  {
    RankingMembers(es);
    FilterHolds(ADDRESSABLE, Ranking(es));
    TakeIsShortest(Filter(ADDRESSABLE, Ranking(es)), need);
  }

  /** WHAT THE PLAN NAMES: when names hold no NUL, the shortest ranked prefix of addressable residents
      that reaches the need, each by its own name, however many residents are alike. */
  lemma ToFreeOwn(es: seq<Entry>, need: real)
    requires OwnNames(es)
    ensures ToFree(es, need) == if need <= 0.0 then [] else Targets(Take(Filter(ADDRESSABLE, Ranking(es)), need))
  {
    TakenFrom(es, need);
    NamesOwn(es, Take(Filter(ADDRESSABLE, Ranking(es)), need));
  }

  lemma UniqueNames(es: seq<Entry>)
    requires UniqueKeys(es)
    ensures OwnNames(es)
  {
    forall e | e in es ensures Under(es, e).Target() == e.Target() { UnderItself(es, e); }
  }

  /** With distinct keys every resident is looked up as itself. */
  lemma ForActionOwn(es: seq<Entry>, need: real)
    requires UniqueKeys(es)
    ensures ForAction(es, need) == if need <= 0.0 then [] else Targets(Take(Filter(ACTIONABLE, Ranking(es)), need))
  {
    RankingMembers(es);
    FirstsThemselves(es, Ranking(es));
  }

  // ------------------------------------------------------------ the planners

  /** Why a resident is not evicted: requests first, then an active pin. */
  function ProtectedReason(e: Entry): (r: Option<string>)
    ensures r.Some? <==> e.Protected()
    ensures r == if e.reqCount > 0 then Some("inflight") else if e.pinned && e.pinRemain > 0.0 then Some("pin_active") else None
  {
    if e.reqCount > 0 then Some("inflight") else if e.PinActive() then Some("pin_active") else None
  }

  /** The protected residents in the order they were reported, each with its reason. */
  function Kept(es: seq<Entry>): seq<(string, string)> {
    if es == [] then []
    else if es[0].Protected() then [(es[0].digest, ProtectedReason(es[0]).value)] + Kept(es[1..])
    else Kept(es[1..])
  }

  const HELD: Entry -> bool := (e: Entry) => e.reqCount > 0 || (e.pinned && e.pinRemain > 0.0)

  /** The kept are reported in order: the reason for the first one kept, and then those of the rest. */
  lemma {:induction false} KeptExact(es: seq<Entry>)
    ensures |Kept(es)| == |Filter(HELD, es)|
    ensures forall k :: 0 <= k < |Kept(es)| ==>
      var e := Filter(HELD, es)[k];
      Kept(es)[k] == (e.digest, if e.reqCount > 0 then "inflight" else "pin_active")
  {
    if es != [] { KeptExact(es[1..]); }
  }

  lemma {:induction false} KeptSnoc(es: seq<Entry>, e: Entry)
    ensures Kept(es + [e]) == Kept(es) + if e.Protected() then [(e.digest, ProtectedReason(e).value)] else []
  {
    if es == [] {
      assert es + [e] == [e];
    } else {
      assert (es + [e])[1..] == es[1..] + [e];
      KeptSnoc(es[1..], e);
    }
  }

  /** No resident is lost: each is ranked for eviction or kept with a reason, and not both. */
  lemma {:induction false} RankedOrKept(es: seq<Entry>)
    ensures |Ranking(es)| + |Kept(es)| == |es|
  {
    SortSame(Filter(NOT_PROTECTED, es));
    assert |multiset(Ranking(es))| == |multiset(Filter(NOT_PROTECTED, es))|;
    FilterOrKept(es);
  }

  lemma {:induction false} FilterOrKept(es: seq<Entry>)
    ensures |Filter(NOT_PROTECTED, es)| + |Kept(es)| == |es|
  {
    if es != [] { FilterOrKept(es[1..]); }
  }

  /** RankEvictions: the unprotected are appended in turn and then sorted stably, the others are kept
      with their reasons. */
  method RankEvictions(es: seq<Entry>) returns (evictable: seq<Entry>, kept: seq<(string, string)>)
    ensures evictable == Ranking(es) && kept == Kept(es)
  {
    evictable, kept := [], [];
    for k := 0 to |es|
      invariant evictable == Filter(NOT_PROTECTED, es[..k]) && kept == Kept(es[..k])
    {
      assert es[..k + 1] == es[..k] + [es[k]];
      FilterSnoc(NOT_PROTECTED, es[..k], es[k]);
      KeptSnoc(es[..k], es[k]);
      var reason := ProtectedReason(es[k]);
      if reason.Some? { kept := kept + [(es[k].digest, reason.value)]; } else { evictable := evictable + [es[k]]; }
    }
    assert es[..|es|] == es;
    evictable := Sort(evictable);
  }

  lemma {:induction false} FilterSnoc(p: Entry -> bool, es: seq<Entry>, e: Entry)
    ensures Filter(p, es + [e]) == if p(e) then Filter(p, es) + [e] else Filter(p, es)
  {
    if es == [] {
      assert es + [e] == [e];
    } else {
      assert (es + [e])[1..] == es[1..] + [e];
      FilterSnoc(p, es[1..], e);
    }
  }

  /** The first resident under each key. */
  function Lookup(es: seq<Entry>): map<string, Entry> {
    if es == [] then map[] else Lookup(es[1..])[es[0].Key() := es[0]]
  }

  method ByKey(es: seq<Entry>) returns (byKey: map<string, Entry>)
    ensures byKey == Lookup(es)
  {
    byKey := map[];
    for k := 0 to |es|
      invariant byKey == Lookup(es[..k])
    {
      assert es[..k + 1] == es[..k] + [es[k]];
      LookupSnoc(es[..k], es[k]);
      if es[k].Key() !in byKey { byKey := byKey[es[k].Key() := es[k]]; }
    }
    assert es[..|es|] == es;
  }

  lemma {:induction false} LookupSnoc(es: seq<Entry>, e: Entry)
    ensures Lookup(es + [e]) == if e.Key() in Lookup(es) then Lookup(es) else Lookup(es)[e.Key() := e]
  {
    if es == [] {
      assert es + [e] == [e];
    } else {
      assert (es + [e])[1..] == es[1..] + [e];
      LookupSnoc(es[1..], e);
    }
  }

  lemma {:induction false} LookupUnder(es: seq<Entry>, e: Entry)
    requires e in es
    ensures e.Key() in Lookup(es) && Lookup(es)[e.Key()] == Under(es, e)
  {
    if es[0].Key() != e.Key() { LookupUnder(es[1..], e); }
  }

  /** One ranked resident as a planner sees it: whether it may be listed, its name, what it frees. */
  datatype Choice = Choice(may: bool, name: string, gb: real)

  /** The names listed from the k-th choice on until they free the need. */
  ghost function Until(cs: seq<Choice>, k: nat, need: real): seq<string>
    requires k <= |cs|
    decreases |cs| - k
  {
    if k == |cs| then []
    else if !cs[k].may then Until(cs, k + 1, need)
    else [cs[k].name] + if cs[k].gb >= need then [] else Until(cs, k + 1, need - cs[k].gb)
  }

  lemma UntilNext(cs: seq<Choice>, k: nat, goal: seq<string>, out: seq<string>, need: real)
    requires k < |cs| && goal == out + Until(cs, k, need)
    ensures
      if !cs[k].may then goal == out + Until(cs, k + 1, need)
      else if cs[k].gb >= need then goal == out + [cs[k].name]
      else goal == out + [cs[k].name] + Until(cs, k + 1, need - cs[k].gb)
  {
  }

  lemma TakeStep(rest: seq<Entry>, p: Entry -> bool, need: real)
    requires rest != []
    ensures var t := Take(Filter(p, rest), need);
      if !p(rest[0]) then t == Take(Filter(p, rest[1..]), need)
      else t != [] && t[0] == rest[0] &&
           t[1..] == if rest[0].Occupied() >= need then [] else Take(Filter(p, rest[1..]), need - rest[0].Occupied())
  {
    if p(rest[0]) { assert Filter(p, rest)[1..] == Filter(p, rest[1..]); }
  }

  lemma LookupRanked(es: seq<Entry>, k: nat)
    requires k < |Ranking(es)|
    ensures var e := Ranking(es)[k]; e.Key() in Lookup(es) && Lookup(es)[e.Key()] == Under(es, e)
  {
    RankingMembers(es);
    assert Ranking(es)[k] in Ranking(es);
    LookupUnder(es, Ranking(es)[k]);
  }

  // EvictToFree

  ghost function Named(found: Entry, e: Entry): Choice {
    Choice(found.Addressable(), found.Target(), e.Occupied())
  }

  ghost function NamedAll(es: seq<Entry>, plan: seq<Entry>): (cs: seq<Choice>)
    ensures |cs| == |plan| && forall k :: 0 <= k < |plan| ==> cs[k] == Named(Under(es, plan[k]), plan[k])
  {
    seq(|plan|, k requires 0 <= k < |plan| => Named(Under(es, plan[k]), plan[k]))
  }

  lemma {:induction false} NamedUntil(es: seq<Entry>, plan: seq<Entry>, k: nat, need: real)
    requires k <= |plan|
    ensures Until(NamedAll(es, plan), k, need) == Names(es, Take(Filter(ADDRESSABLE, plan[k..]), need))
    decreases |plan| - k
  {
    if k < |plan| {
      UnderAddressable(es, plan[k]);
      assert plan[k..][0] == plan[k] && plan[k..][1..] == plan[k + 1..];
      TakeStep(plan[k..], ADDRESSABLE, need);
      NamedUntil(es, plan, k + 1, need);
      NamedUntil(es, plan, k + 1, need - plan[k].Occupied());
      var t := Take(Filter(ADDRESSABLE, plan[k..]), need);
      if plan[k].Addressable() { assert Names(es, t) == [Under(es, t[0]).Target()] + Names(es, t[1..]); }
    }
  }

  method EvictToFree(es: seq<Entry>, need: real) returns (out: seq<string>)
    ensures out == ToFree(es, need)
  {
    if need <= 0.0 { return []; }
    var plan, _ := RankEvictions(es);
    var byKey := ByKey(es);
    forall k | 0 <= k < |plan| ensures plan[k].Key() in byKey && byKey[plan[k].Key()] == Under(es, plan[k]) {
      LookupRanked(es, k);
    }
    out := NameUntil(byKey, plan, need, NamedAll(es, plan));
    NamedUntil(es, plan, 0, need);
    assert plan[0..] == plan;
  }

  /** The loop of EvictToFree: names what can be named until it frees enough. */
  method NameUntil(byKey: map<string, Entry>, plan: seq<Entry>, need: real, ghost cs: seq<Choice>) returns (out: seq<string>)
    requires |cs| == |plan|
    requires forall k :: 0 <= k < |plan| ==> plan[k].Key() in byKey && cs[k] == Named(byKey[plan[k].Key()], plan[k])
    ensures out == Until(cs, 0, need)
  {
    out := [];
    var freed := 0.0;
    for k := 0 to |plan|
      invariant Until(cs, 0, need) == out + Until(cs, k, need - freed)
    {
      UntilNext(cs, k, Until(cs, 0, need), out, need - freed);
      var r := byKey[plan[k].Key()];
      if r.Addressable() {
        out := out + [r.Target()];
        freed := freed + plan[k].Occupied();
        if freed >= need { return; }
      }
    }
  }

  // EvictPlanForAction

  ghost function Acted(found: Entry): Choice {
    Choice(found.Actionable(), found.Target(), found.Occupied())
  }

  ghost function ActedAll(es: seq<Entry>, plan: seq<Entry>): (cs: seq<Choice>)
    ensures |cs| == |plan| && forall k :: 0 <= k < |plan| ==> cs[k] == Acted(Under(es, plan[k]))
  {
    seq(|plan|, k requires 0 <= k < |plan| => Acted(Under(es, plan[k])))
  }

  lemma {:induction false} ActedUntil(es: seq<Entry>, plan: seq<Entry>, k: nat, need: real)
    requires k <= |plan|
    ensures Until(ActedAll(es, plan), k, need) == Targets(Take(Filter(ACTIONABLE, Firsts(es, plan[k..])), need))
    decreases |plan| - k
  {
    if k < |plan| {
      assert plan[k..][0] == plan[k] && plan[k..][1..] == plan[k + 1..];
      var rest := Firsts(es, plan[k..]);
      assert rest[0] == Under(es, plan[k]) && rest[1..] == Firsts(es, plan[k + 1..]);
      TakeStep(rest, ACTIONABLE, need);
      ActedUntil(es, plan, k + 1, need);
      ActedUntil(es, plan, k + 1, need - rest[0].Occupied());
      var t := Take(Filter(ACTIONABLE, rest), need);
      if rest[0].Actionable() { assert Targets(t) == [t[0].Target()] + Targets(t[1..]); }
    }
  }

  method EvictPlanForAction(es: seq<Entry>, need: real) returns (out: seq<string>)
    ensures out == ForAction(es, need)
    ensures forall t :: t in out ==>
      t != "" && exists e :: e in es && e.managed && e.reqCount <= 0 && !(e.pinned && e.pinRemain > 0.0) && e.state != Loading
                             && t == if e.alias == "" then e.digest else e.alias
  {
    ForActionSafe(es, need);
    if need <= 0.0 { return []; }
    var byKey := ByKey(es);
    var plan, _ := RankEvictions(es);
    forall k | 0 <= k < |plan| ensures plan[k].Key() in byKey && byKey[plan[k].Key()] == Under(es, plan[k]) {
      LookupRanked(es, k);
    }
    out := ActUntil(byKey, plan, need, ActedAll(es, plan));
    ActedUntil(es, plan, 0, need);
    assert plan[0..] == plan;
  }

  /** The loop of EvictPlanForAction: skips what may not be acted on. */
  method ActUntil(byKey: map<string, Entry>, plan: seq<Entry>, need: real, ghost cs: seq<Choice>) returns (out: seq<string>)
    requires |cs| == |plan|
    requires forall k :: 0 <= k < |plan| ==> plan[k].Key() in byKey && cs[k] == Acted(byKey[plan[k].Key()])
    ensures out == Until(cs, 0, need)
  {
    out := [];
    var freed := 0.0;
    for k := 0 to |plan|
      invariant Until(cs, 0, need) == out + Until(cs, k, need - freed)
    {
      UntilNext(cs, k, Until(cs, 0, need), out, need - freed);
      var r := byKey[plan[k].Key()];
      if r.Actionable() {
        out := out + [r.Target()];
        freed := freed + r.Occupied();
        if freed >= need { return; }
      }
    }
  }

  // ------------------------------------------------------------ they agree

  lemma FilterHolds(p: Entry -> bool, es: seq<Entry>)
    ensures forall e :: e in Filter(p, es) ==> p(e) && e in es
  {
    forall e | e in Filter(p, es) ensures p(e) && e in es {
      var k :| 0 <= k < |Filter(p, es)| && Filter(p, es)[k] == e;
      FilterFrom(p, es, k);
    }
  }

  /** Planning over what may be acted on is planning over everything and skipping the rest. */
  lemma PlannersAgree(es: seq<Entry>, need: real)
    requires UniqueKeys(es)
    ensures ForAction(es, need) == ToFree(Filter(ACTIONABLE, es), need)
  {
    RankingCommutes(ACTIONABLE, es);
    FilterHolds(ACTIONABLE, Ranking(es));
    FilterAll(ADDRESSABLE, Filter(ACTIONABLE, Ranking(es)));
    ForActionOwn(es, need);
    FilterUnique(ACTIONABLE, es);
    UniqueNames(Filter(ACTIONABLE, es));
    ToFreeOwn(Filter(ACTIONABLE, es), need);
  }

  /** What the agent reports of its own processes (residentEntryOf): managed, waited for exactly while
      loading, and named; the names are the keys of its table. */
  predicate AgentEntry(e: Entry) {
    e.managed && (e.waitBound <==> e.state == Loading) && e.alias != ""
  }

  ghost predicate AgentEntries(es: seq<Entry>) {
    && (forall e :: e in es ==> AgentEntry(e))
    && (forall i, j :: 0 <= i < j < |es| ==> es[i].alias != es[j].alias)
  }

  const NOT_ACTIONABLE: Entry -> bool := (e: Entry) => !e.Actionable()

  /** The agent's planner: plan first, then drop what may not be acted on. */
  method EvictVictims(es: seq<Entry>, need: real) returns (out: seq<string>)
    requires AgentEntries(es) && UniqueKeys(es)
    ensures out == ForAction(es, need)
  {
    if need <= 0.0 { return []; }
    var ordered := EvictToFree(es, need);
    var byTarget := ByTarget(es);
    TakenAreOurs(es, need);
    ForActionOwn(es, need);
    out := DropBlocked(ordered, byTarget, Take(Ranking(es), need));
    LoadingComesLast(es, need);
  }

  method DropBlocked(ordered: seq<string>, byTarget: map<string, Entry>, ghost taken: seq<Entry>) returns (out: seq<string>)
    requires ordered == Targets(taken)
    requires forall e :: e in taken ==> e.Target() in byTarget && byTarget[e.Target()] == e
    ensures out == Targets(Filter(ACTIONABLE, taken))
  {
    TargetsAt(taken, 0);
    out := [];
    for k := 0 to |ordered|
      invariant out == Targets(Filter(ACTIONABLE, taken[..k]))
    {
      TargetsAt(taken, k);
      assert taken[k] in taken;
      var e := byTarget[ordered[k]];
      assert taken[..k + 1] == taken[..k] + [e];
      FilterSnoc(ACTIONABLE, taken[..k], e);
      if e.Actionable() {
        TargetsSnoc(Filter(ACTIONABLE, taken[..k]), e);
        out := out + [ordered[k]];
      }
    }
    assert taken[..|taken|] == taken;
  }

  method ByTarget(es: seq<Entry>) returns (byTarget: map<string, Entry>)
    requires AgentEntries(es)
    ensures forall e :: e in es ==> e.Target() in byTarget && byTarget[e.Target()] == e
  {
    byTarget := map[];
    for k := 0 to |es|
      invariant forall j :: 0 <= j < k ==> es[j].Target() in byTarget && byTarget[es[j].Target()] == es[j]
    {
      forall j | 0 <= j < k ensures es[j].Target() != es[k].Target() {
        assert es[j] in es && es[k] in es && es[j].alias != es[k].alias;
      }
      byTarget := byTarget[es[k].Target() := es[k]];
    }
  }

  lemma TakenAreOurs(es: seq<Entry>, need: real)
    requires AgentEntries(es) && UniqueKeys(es) && need > 0.0
    ensures ToFree(es, need) == Targets(Take(Ranking(es), need))
    ensures forall e :: e in Take(Ranking(es), need) ==> e in es
  {
    RankingExact(es);
    forall e | e in Ranking(es) ensures ADDRESSABLE(e) { assert e in es; }
    FilterAll(ADDRESSABLE, Ranking(es));
    TakeIsShortest(Ranking(es), need);
    UniqueNames(es);
    ToFreeOwn(es, need);
  }

  /** The agent's entries have distinct keys as soon as no digest or name holds a NUL. */
  lemma AgentKeys(es: seq<Entry>)
    requires AgentEntries(es) && NulFree(es)
    ensures UniqueKeys(es)
  {
    forall i, j | 0 <= i < j < |es| ensures es[i].Key() != es[j].Key() {
      assert es[i] in es && es[j] in es;
      if es[i].Key() == es[j].Key() { SplitKey(es[i].digest, es[i].alias, es[j].digest, es[j].alias); }
    }
  }

  lemma {:induction false} TargetsAt(es: seq<Entry>, k: nat)
    ensures |Targets(es)| == |es|
    ensures k < |es| ==> Targets(es)[k] == es[k].Target()
  {
    if es != [] { TargetsAt(es[1..], if k > 0 then k - 1 else 0); }
  }

  lemma {:induction false} TargetsSnoc(es: seq<Entry>, e: Entry)
    ensures Targets(es + [e]) == Targets(es) + [e.Target()]
  {
    if es == [] {
      assert es + [e] == [e];
    } else {
      assert (es + [e])[1..] == es[1..] + [e];
      TargetsSnoc(es[1..], e);
    }
  }

  /** In a sorted list of the agent's unprotected entries the loading ones are at the end, so taking a
      prefix and dropping them is the same as dropping them and taking a prefix. */
  lemma LoadingComesLast(es: seq<Entry>, need: real)
    requires AgentEntries(es) && UniqueKeys(es)
    ensures Filter(ACTIONABLE, Take(Ranking(es), need)) == Take(Filter(ACTIONABLE, Ranking(es)), need)
  {
    RankingExact(es);
    TakeThenFilter(Ranking(es), need);
  }

  lemma {:induction false} TakeThenFilter(rs: seq<Entry>, need: real)
    requires Sorted(rs) && forall e :: e in rs ==> AgentEntry(e) && !e.Protected()
    ensures Filter(ACTIONABLE, Take(rs, need)) == Take(Filter(ACTIONABLE, rs), need)
  {
    if rs != [] {
      if rs[0].Actionable() {
        SortedTail(rs);
        TakeThenFilter(rs[1..], need - rs[0].Occupied());
        assert Filter(ACTIONABLE, [rs[0]]) == [rs[0]];
      } else {
        assert rs[0] in rs && rs[0].state == Loading && rs[0].Tier() == 5;
        forall e | e in rs ensures !e.Actionable() {
          var k :| 0 <= k < |rs| && rs[k] == e;
        }
        FilterNone(rs);
        TakeIsShortest(rs, need);
        FilterNone(Take(rs, need));
      }
    }
  }

  lemma {:induction false} FilterNone(es: seq<Entry>)
    requires forall e :: e in es ==> !e.Actionable()
    ensures Filter(ACTIONABLE, es) == []
  {
    if es != [] { FilterNone(es[1..]); }
  }

  // ------------------------------------------------------------ how much a plan frees

  /** PlannedFreeGb. */
  function PlannedFree(es: seq<Entry>, targets: set<string>): real {
    if es == [] then 0.0
    else (if es[0].Actionable() && es[0].Target() in targets then es[0].Occupied() else 0.0) + PlannedFree(es[1..], targets)
  }

  lemma {:induction false} SumRemove(es: seq<Entry>, k: nat)
    requires k < |es|
    ensures Sum(es) == es[k].Occupied() + Sum(es[..k] + es[k + 1..])
  {
    if k == 0 {
      assert es[..0] + es[1..] == es[1..];
    } else {
      SumRemove(es[1..], k - 1);
      assert (es[..k] + es[k + 1..])[1..] == es[1..][..k - 1] + es[1..][k..];
    }
  }

  lemma Without(es: seq<Entry>, k: nat)
    requires k < |es|
    ensures multiset(es[..k] + es[k + 1..]) == multiset(es) - multiset{es[k]}
  {
    assert es == es[..k] + ([es[k]] + es[k + 1..]);
    assert multiset(es) == multiset(es[..k]) + (multiset{es[k]} + multiset(es[k + 1..]));
    assert multiset(es[..k] + es[k + 1..]) == multiset(es[..k]) + multiset(es[k + 1..]);
  }

  lemma {:induction false} SumOfAnyOrder(xs: seq<Entry>, ys: seq<Entry>)
    requires multiset(xs) == multiset(ys)
    ensures Sum(xs) == Sum(ys)
  {
    if xs == [] {
      assert |multiset(ys)| == 0;
    } else {
      assert xs[0] in multiset(ys);
      var k :| 0 <= k < |ys| && ys[k] == xs[0];
      SumRemove(ys, k);
      RestSame(xs, ys, k);
      SumOfAnyOrder(xs[1..], ys[..k] + ys[k + 1..]);
    }
  }

  lemma RestSame(xs: seq<Entry>, ys: seq<Entry>, k: nat)
    requires multiset(xs) == multiset(ys) && xs != [] && k < |ys| && ys[k] == xs[0]
    ensures multiset(xs[1..]) == multiset(ys[..k] + ys[k + 1..])
  {
    Without(ys, k);
    Headed(xs);
    OneLess(multiset(ys), multiset(xs[1..]), xs[0]);
  }

  lemma Headed(xs: seq<Entry>)
    requires xs != []
    ensures multiset(xs) == multiset{xs[0]} + multiset(xs[1..])
  {
    assert xs == [xs[0]] + xs[1..];
  }

  lemma OneLess(all: multiset<Entry>, rest: multiset<Entry>, e: Entry)
    requires all == multiset{e} + rest
    ensures all - multiset{e} == rest
  {
  }

  lemma {:induction false} PlannedIsSum(es: seq<Entry>, targets: set<string>)
    ensures PlannedFree(es, targets) == Sum(Filter(Picked(targets), es))
  {
    if es != [] { PlannedIsSum(es[1..], targets); }
  }

  function Picked(targets: set<string>): Entry -> bool {
    (e: Entry) => e.Actionable() && e.Target() in targets
  }

  /** No two residents that may be acted on answer to the same target. */
  ghost predicate UniqueTargets(es: seq<Entry>) {
    forall e, f :: e in es && f in es && e.Actionable() && f.Actionable() && e.Target() == f.Target() ==> e == f
  }

  /** What PlannedFreeGb reports for the planner's own list is what that list frees: the need, or all
      there is. */
  lemma PlanFreesEnough(es: seq<Entry>, need: real)
    requires UniqueKeys(es) && need > 0.0
    requires UniqueTargets(es)
    ensures var taken := Take(Filter(ACTIONABLE, Ranking(es)), need);
      && PlannedFree(es, set t | t in ForAction(es, need)) == Sum(taken)
      && (Sum(taken) >= need || taken == Filter(ACTIONABLE, Ranking(es)))
  {
    var ranked := Filter(ACTIONABLE, Ranking(es));
    var taken := Take(ranked, need);
    var ts := set t | t in ForAction(es, need);
    ForActionOwn(es, need);
    TakeIsShortest(ranked, need);
    PlannedIsSum(es, ts);
    RankingExact(es);
    FilterHolds(ACTIONABLE, Ranking(es));
    FilterHolds(Picked(ts), es);
    forall e ensures multiset(Filter(Picked(ts), es))[e] == multiset(taken)[e] {
      PickedCount(es, need, e);
    }
    SumOfAnyOrder(Filter(Picked(ts), es), taken);
  }

  lemma TargetIn(es: seq<Entry>, e: Entry)
    requires e in es
    ensures e.Target() in Targets(es)
  {
    var k :| 0 <= k < |es| && es[k] == e;
    TargetsAt(es, k);
    assert Targets(es)[k] == e.Target();
  }

  lemma {:induction false} FirstsAreReported(es: seq<Entry>, plan: seq<Entry>)
    requires forall e :: e in plan ==> e in es
    ensures forall e :: e in Firsts(es, plan) ==> e in es
  {
    if plan != [] {
      assert plan[0] in es;
      FirstsAreReported(es, plan[1..]);
    }
  }

  /** The name a resident is addressed by. */
  predicate GoesBy(e: Entry, t: string) {
    t != "" && t == if e.alias == "" then e.digest else e.alias
  }

  /** Ours, without requests, not pinned for any longer, not loading, and addressed by `t`. */
  predicate MayAct(e: Entry, t: string) {
    e.managed && e.reqCount <= 0 && !(e.pinned && e.pinRemain > 0.0) && e.state != Loading && GoesBy(e, t)
  }

  /** ONLY WHAT MAY BE ACTED ON: whatever was reported, alike or not, every target of the plan is the name
      of a reported resident that is managed, addressable, not loading, without requests and unpinned. */
  lemma ForActionSafe(es: seq<Entry>, need: real)
    ensures forall t :: t in ForAction(es, need) ==>
      t != "" && exists e :: e in es && e.managed && e.reqCount <= 0 && !(e.pinned && e.pinRemain > 0.0) && e.state != Loading
                             && t == if e.alias == "" then e.digest else e.alias
  {
    var found := Firsts(es, Ranking(es));
    RankingMembers(es);
    FirstsAreReported(es, Ranking(es));
    FilterHolds(ACTIONABLE, found);
    TakeIsShortest(Filter(ACTIONABLE, found), need);
    forall t | t in ForAction(es, need) ensures t != "" && exists e :: e in es && MayAct(e, t) {
      var e := TargetOf(Take(Filter(ACTIONABLE, found), need), t);
      assert e in Filter(ACTIONABLE, found);
    }
  }

  /** What each resident occupies: its measured memory, or its resident set without one. */
  function TotalGb(es: seq<Entry>): real {
    if es == [] then 0.0 else (if es[0].memGb > 0.0 then es[0].memGb else es[0].rssGb) + TotalGb(es[1..])
  }

  lemma {:induction false} SumIsTotal(es: seq<Entry>)
    ensures Sum(es) == TotalGb(es)
  {
    if es != [] { SumIsTotal(es[1..]); }
  }

  lemma {:induction false} PartOfTotal(p: Entry -> bool, es: seq<Entry>)
    requires forall e :: e in es ==> (if e.memGb > 0.0 then e.memGb else e.rssGb) >= 0.0
    ensures Sum(Filter(p, es)) <= TotalGb(es)
  {
    if es != [] { PartOfTotal(p, es[1..]); }
  }

  /** EVERYTHING THAT MAY BE ACTED ON: when more is needed than all residents occupy, the plan names exactly
      the residents that are managed, addressable, not loading, without requests and unpinned. */
  lemma ForActionAll(es: seq<Entry>, need: real, t: string)
    requires UniqueKeys(es) && need > 0.0 && need > TotalGb(es)
    requires forall e :: e in es ==> (if e.memGb > 0.0 then e.memGb else e.rssGb) >= 0.0
    ensures t in ForAction(es, need) <==>
      t != "" && exists e :: e in es && e.managed && e.reqCount <= 0 && !(e.pinned && e.pinRemain > 0.0) && e.state != Loading
                             && t == if e.alias == "" then e.digest else e.alias
  {
    ForActionSafe(es, need);
    ForActionOwn(es, need);
    TakesAll(es, need);
    RankingMembers(es);
    if e :| e in es && MayAct(e, t) {
      FilterKeeps(ACTIONABLE, Ranking(es), e);
      TargetIn(Filter(ACTIONABLE, Ranking(es)), e);
    }
  }

  lemma TakesAll(es: seq<Entry>, need: real)
    requires need > 0.0 && need > TotalGb(es)
    requires forall e :: e in es ==> (if e.memGb > 0.0 then e.memGb else e.rssGb) >= 0.0
    ensures Take(Filter(ACTIONABLE, Ranking(es)), need) == Filter(ACTIONABLE, Ranking(es))
  {
    var ranked := Filter(ACTIONABLE, Ranking(es));
    RankingMembers(es);
    FilterHolds(ACTIONABLE, Ranking(es));
    TakeIsShortest(ranked, need);
    PartOfTotal(NOT_PROTECTED, es);
    SortSame(Filter(NOT_PROTECTED, es));
    SumOfAnyOrder(Ranking(es), Filter(NOT_PROTECTED, es));
    SumIsTotal(Ranking(es));
    PartOfTotal(ACTIONABLE, Ranking(es));
    BeginningOfSum(ranked, |Take(ranked, need)|);
  }

  lemma {:induction false} BeginningOfSum(es: seq<Entry>, k: nat)
    requires k <= |es| && forall e :: e in es ==> (if e.memGb > 0.0 then e.memGb else e.rssGb) >= 0.0
    ensures 0.0 <= Sum(es[..k]) <= Sum(es)
  {
    if es != [] {
      BeginningOfSum(es[1..], if k > 0 then k - 1 else 0);
      if k > 0 { assert es[..k][1..] == es[1..][..k - 1]; }
    }
  }

  lemma {:induction false} FilterKeeps(p: Entry -> bool, es: seq<Entry>, e: Entry)
    requires e in es && p(e)
    ensures e in Filter(p, es)
  {
    if es[0] != e { FilterKeeps(p, es[1..], e); }
  }

  /** ONLY WHAT MAY GO: where every key finds its own name, each target is the name of a reported resident
      without requests and unpinned. */
  lemma ToFreeSafe(es: seq<Entry>, need: real)
    requires OwnNames(es)
    ensures forall t :: t in ToFree(es, need) ==>
      t != "" && exists e :: e in es && e.reqCount <= 0 && !(e.pinned && e.pinRemain > 0.0)
                             && t == if e.alias == "" then e.digest else e.alias
  {
    ToFreeOwn(es, need);
    TakenFrom(es, need);
    forall t | t in ToFree(es, need)
      ensures t != "" && exists e :: e in es && e.reqCount <= 0 && !(e.pinned && e.pinRemain > 0.0) && GoesBy(e, t)
    {
      var e := TargetOf(Take(Filter(ADDRESSABLE, Ranking(es)), need), t);
    }
  }

  lemma TargetOf(es: seq<Entry>, t: string) returns (e: Entry)
    requires t in Targets(es)
    ensures e in es && e.Target() == t
  {
    var k :| 0 <= k < |Targets(es)| && Targets(es)[k] == t;
    TargetsAt(es, k);
    e := es[k];
  }

  lemma OnceOnly(es: seq<Entry>, e: Entry)
    requires UniqueKeys(es)
    ensures multiset(es)[e] == if e in es then 1 else 0
  {
    if e in es {
      var k :| 0 <= k < |es| && es[k] == e;
      Without(es, k);
      assert e !in es[..k] + es[k + 1..];
      assert e !in multiset(es[..k] + es[k + 1..]);
    }
  }

  lemma PickedCount(es: seq<Entry>, need: real, e: Entry)
    requires UniqueKeys(es) && need > 0.0
    requires UniqueTargets(es)
    ensures var ts := set t | t in ForAction(es, need);
      multiset(Filter(Picked(ts), es))[e] == multiset(Take(Filter(ACTIONABLE, Ranking(es)), need))[e]
  {
    var ranked := Filter(ACTIONABLE, Ranking(es));
    var taken := Take(ranked, need);
    var ts := set t | t in ForAction(es, need);
    ForActionOwn(es, need);
    RankingExact(es);
    FilterHolds(ACTIONABLE, Ranking(es));
    FilterUnique(ACTIONABLE, Ranking(es));
    TakeIsShortest(ranked, need);
    assert UniqueKeys(taken);
    assert forall x :: x in taken ==> x in ranked;
    OnceOnly(taken, e);
    OnceOnly(es, e);
    FilterCount(Picked(ts), es, e);
    if e in taken {
      TargetIn(taken, e);
      assert e in ranked;
    } else if e in es && Picked(ts)(e) {
      var f := TargetOf(taken, e.Target());
    }
  }
}

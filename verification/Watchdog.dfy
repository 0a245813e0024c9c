/**
The request watchdog: two orthogonal clocks, one verdict per check.  Time and readings are injected,
so a run is a list of check rounds; what the rounds say is nobody's choice.
*/
module Watchdog {
  import opened Wrappers

  /** Times are in nanoseconds.  Zero or less means "not set" wherever the program says so. */
  datatype Config = Config(enabled: bool, noProgress: nat, prefill: int, estCtx: int, tokPerSec: real, eggMax: int,
                           window: int, sample: int, deadFlat: int, grace: int, maxStaleKills: int)

  /** One pass of the loop: whether the response header is there before or during the window, the two
      CPU readings, the chunk count, and how much longer than window plus sample the pass took. */
  datatype Round = Round(doneBefore: bool, doneDuring: bool, cpu1: Option<nat>, cpu2: Option<nat>,
                         chunks: Option<nat>, late: nat)

  datatype Verdict = Fine | Degraded | StuckCpuStalled | StuckNoProgress

  const SECOND: nat := 1_000_000_000

  // ------------------------------------------------------------ the budget

  function PrefillBudget(estCtx: int, tokPerSec: real): int {
    if estCtx <= 0 || tokPerSec <= 0.0 then 0
    else (estCtx as real / tokPerSec * 2.0 * SECOND as real).Floor
  }

  function EffectivePrefill(c: Config): int {
    if c.prefill <= 0 then PrefillBudget(c.estCtx, c.tokPerSec) else c.prefill
  }

  function BudgetBase(c: Config): int {
    var pb := EffectivePrefill(c);
    if c.noProgress == 0 && pb == 0 then 0
    else if c.noProgress == 0 then pb
    else if pb == 0 then c.noProgress
    else if pb > c.noProgress then pb
    else c.noProgress
  }

  /** The budget is the widest of the three patience settings, and off exactly when none is given. */
  function ProgressBudget(c: Config): (b: int)
    ensures b >= c.noProgress && b >= EffectivePrefill(c) && b >= c.eggMax && b >= 0
    ensures b == c.noProgress || b == EffectivePrefill(c) || b == c.eggMax
    ensures b == 0 <==> c.noProgress == 0 && EffectivePrefill(c) == 0 && c.eggMax <= 0
  {
    PrefillNotNegative(c.estCtx, c.tokPerSec);
    if c.eggMax > BudgetBase(c) then c.eggMax else BudgetBase(c)
  }

  lemma PrefillNotNegative(estCtx: int, tokPerSec: real)
    ensures PrefillBudget(estCtx, tokPerSec) >= 0
  {
    if estCtx > 0 && tokPerSec > 0.0 {
      assert estCtx as real / tokPerSec > 0.0;
    }
  }

  /** THE PREFILL BUDGET: twice the seconds that the context takes at the observed speed, in whole nanoseconds;
      none without a context or a speed. */
  lemma PrefillExact(estCtx: int, tokPerSec: real)
    ensures estCtx <= 0 || tokPerSec <= 0.0 ==> PrefillBudget(estCtx, tokPerSec) == 0
    ensures estCtx > 0 && tokPerSec > 0.0 ==>
      var exact := 2_000_000_000.0 * (estCtx as real / tokPerSec);
      PrefillBudget(estCtx, tokPerSec) as real <= exact < PrefillBudget(estCtx, tokPerSec) as real + 1.0
  {
    if estCtx > 0 && tokPerSec > 0.0 {
      var seconds := estCtx as real / tokPerSec;
      assert seconds * 2.0 * SECOND as real == 2_000_000_000.0 * seconds;
    }
  }

  /** 132000 tokens at 96 a second: 2750 seconds. */
  lemma PrefillExample()
    ensures PrefillBudget(132000, 96.0) == 2750 * SECOND
  {
    assert 132000.0 / 96.0 == 1375.0;
  }

  /** THE THREE PATIENCE SETTINGS: the widest of no-progress, the prefill budget (given, or worked out) and the
      egg's own limit. */
  lemma BudgetOutcome(c: Config)
    ensures var prefill := if c.prefill > 0 then c.prefill else PrefillBudget(c.estCtx, c.tokPerSec);
      && ProgressBudget(c) >= c.noProgress && ProgressBudget(c) >= prefill && ProgressBudget(c) >= c.eggMax
      && ProgressBudget(c) in {c.noProgress as int, prefill, c.eggMax}
  {
  }

  /** Where nothing is set: a window of ninety seconds, a sample of five, two flat checks in a row, three
      kills. */
  lemma Defaults(c: Config)
    ensures c.window <= 0 ==> Window(c) == 90_000_000_000
    ensures c.sample <= 0 ==> Sample(c) == 5_000_000_000
    ensures c.deadFlat <= 0 ==> DeadFlat(c) == 2
    ensures c.window > 0 ==> Window(c) == c.window
    ensures c.sample > 0 ==> Sample(c) == c.sample
    ensures c.deadFlat > 0 ==> DeadFlat(c) == c.deadFlat
    ensures c.maxStaleKills <= 0 ==> MaxStaleKills(c.maxStaleKills) == 3
    ensures c.maxStaleKills > 0 ==> MaxStaleKills(c.maxStaleKills) == c.maxStaleKills
  {
  }

  function Window(c: Config): (w: nat)
    ensures w > 0
  {
    if c.window <= 0 then 90 * SECOND else c.window
  }

  function Sample(c: Config): (w: nat)
    ensures w > 0
  {
    if c.sample <= 0 then 5 * SECOND else c.sample
  }

  function DeadFlat(c: Config): (n: nat)
    ensures n > 0
  {
    if c.deadFlat <= 0 then 2 else c.deadFlat
  }

  // ------------------------------------------------------------ what the rounds say

  function Took(c: Config, r: Round): nat {
    Window(c) + Sample(c) + r.late
  }

  /** The instant of check `k`, counted from the start of the wait. */
  function Time(c: Config, rs: seq<Round>, k: nat): nat
    requires k < |rs|
  {
    (if k == 0 then 0 else Time(c, rs, k - 1)) + Took(c, rs[k])
  }

  /** The highest chunk count read at the first `k` checks. */
  function HighWater(rs: seq<Round>, k: nat): nat
    requires k <= |rs|
  {
    if k == 0 then 0
    else
      var h := HighWater(rs, k - 1);
      if rs[k - 1].chunks.Some? && rs[k - 1].chunks.value > h then rs[k - 1].chunks.value else h
  }

  /** Real progress at check `k`: the count rose above everything read before. */
  predicate Advanced(rs: seq<Round>, k: nat)
    requires k < |rs|
  {
    rs[k].chunks.Some? && rs[k].chunks.value > HighWater(rs, k)
  }

  /** When the count last rose, as of check `k`; the start of the wait if it never did. */
  function LastAdvance(c: Config, rs: seq<Round>, k: nat): nat
    requires k < |rs|
  {
    if Advanced(rs, k) then Time(c, rs, k) else if k == 0 then 0 else LastAdvance(c, rs, k - 1)
  }

  predicate Readable(r: Round) {
    r.cpu1.Some? && r.cpu2.Some?
  }

  predicate CpuMoved(r: Round) {
    Readable(r) && r.cpu2.value > r.cpu1.value
  }

  /** Neither clock moved at check `k`. */
  predicate Flat(rs: seq<Round>, k: nat)
    requires k < |rs|
  {
    !CpuMoved(rs[k]) && !Advanced(rs, k)
  }

  /** How many checks in a row, ending with `k`, were flat. */
  function FlatCount(rs: seq<Round>, k: nat): nat
    requires k < |rs|
  {
    if !Flat(rs, k) then 0 else if k == 0 then 1 else FlatCount(rs, k - 1) + 1
  }

  function Frozen(c: Config, rs: seq<Round>, k: nat): int
    requires k < |rs|
  {
    Time(c, rs, k) - LastAdvance(c, rs, k)
  }

  /** The verdict of check `k`, taken by itself. */
  function VerdictAt(c: Config, rs: seq<Round>, k: nat): Option<Verdict>
    requires k < |rs|
  {
    if rs[k].doneBefore || rs[k].doneDuring then Some(Fine)
    else if !c.enabled then None
    else if !Readable(rs[k]) then Some(Degraded)
    else if FlatCount(rs, k) >= DeadFlat(c) then Some(StuckCpuStalled)
    else if ProgressBudget(c) > 0 && rs[k].chunks.Some? && Frozen(c, rs, k) >= ProgressBudget(c) then Some(StuckNoProgress)
    else None
  }

  /** No check before `n` reached a verdict. */
  ghost predicate StillWaiting(c: Config, rs: seq<Round>, n: nat)
    requires n <= |rs|
  {
    forall k :: 0 <= k < n ==> VerdictAt(c, rs, k) == None
  }

  /** The high-water mark is the highest count read, or zero. */
  lemma {:induction false} HighWaterIs(rs: seq<Round>, k: nat)
    requires k <= |rs|
    ensures forall j :: 0 <= j < k && rs[j].chunks.Some? ==> rs[j].chunks.value <= HighWater(rs, k)
    ensures HighWater(rs, k) == 0 || exists j :: 0 <= j < k && rs[j].chunks == Some(HighWater(rs, k))
  {
    if k > 0 {
      HighWaterIs(rs, k - 1);
      if HighWater(rs, k) == HighWater(rs, k - 1) && HighWater(rs, k - 1) != 0 {
        var j :| 0 <= j < k - 1 && rs[j].chunks == Some(HighWater(rs, k - 1));
      } else if HighWater(rs, k) != 0 {
        assert rs[k - 1].chunks == Some(HighWater(rs, k));
      }
    }
  }

  /** WHAT COUNTS AS PROGRESS, by the readings: a count above zero and above every count before it. */
  lemma ProgressIs(rs: seq<Round>, k: nat)
    requires k < |rs|
    ensures Advanced(rs, k) <==>
      rs[k].chunks.Some? && rs[k].chunks.value > 0
      && forall j :: 0 <= j < k && rs[j].chunks.Some? ==> rs[j].chunks.value < rs[k].chunks.value
  {
    HighWaterIs(rs, k);
  }

  /** WHAT COUNTS AS STANDING STILL: no CPU time between two readings, and no progress. */
  lemma FlatIs(rs: seq<Round>, k: nat)
    requires k < |rs|
    ensures Flat(rs, k) <==>
      !(rs[k].cpu1.Some? && rs[k].cpu2.Some? && rs[k].cpu2.value > rs[k].cpu1.value) && !Advanced(rs, k)
  {
  }

  /** THE OTHER VERDICTS: fine exactly when the header is there; degraded exactly when it is not and a CPU reading is
      missing; switched off, neither that nor a stuck verdict is given. */
  lemma VerdictOutcome(c: Config, rs: seq<Round>, k: nat)
    requires k < |rs|
    ensures VerdictAt(c, rs, k) == Some(Fine) <==> rs[k].doneBefore || rs[k].doneDuring
    ensures VerdictAt(c, rs, k) == Some(Degraded) <==>
      c.enabled && !rs[k].doneBefore && !rs[k].doneDuring && (rs[k].cpu1.None? || rs[k].cpu2.None?)
    ensures !c.enabled && !rs[k].doneBefore && !rs[k].doneDuring ==> VerdictAt(c, rs, k) == None
  {
  }

  // ------------------------------------------------------------ the loop

  class Watch {
    const cfg: Config
    var now: nat
    var start: nat
    var lastHeartbeat: nat
    var lastProgress: nat
    var progressChunks: nat

    constructor (cfg: Config, now: nat)
      ensures this.cfg == cfg && this.now == now && progressChunks == 0
    {
      this.cfg, this.now := cfg, now;
      start, lastHeartbeat, lastProgress, progressChunks := now, now, now, 0;
    }

    /** Any sign of life renews this clock, and nothing but this clock. */
    method MarkHeartbeat()
      modifies this`lastHeartbeat
      ensures lastHeartbeat == now
    {
      lastHeartbeat := now;
    }

    /** Only a count that rises renews progress; the time of day never does. */
    method MarkProgressChunks(chunks: nat) returns (advanced: bool)
      modifies this`lastProgress, this`progressChunks
      ensures advanced <==> chunks > old(progressChunks)
      ensures progressChunks == if advanced then chunks else old(progressChunks)
      ensures lastProgress == if advanced then now else old(lastProgress)
    {
      if chunks <= progressChunks { return false; }
      progressChunks := chunks;
      lastProgress := now;
      return true;
    }

    /** The watchdog switched off: nothing but the header ends the wait. */
    method WaitForHeader(rs: seq<Round>) returns (v: Option<Verdict>, n: nat)
      requires !cfg.enabled
      ensures n <= |rs| && StillWaiting(cfg, rs, n)
      ensures v.None? ==> n == |rs|
      ensures v.Some? ==> n < |rs| && v == VerdictAt(cfg, rs, n)
    {
      for k := 0 to |rs|
        invariant StillWaiting(cfg, rs, k)
      {
        if rs[k].doneBefore || rs[k].doneDuring { return Some(Fine), k; }
      }
      return None, |rs|;
    }

    /** Wait for the response header.  The verdict is that of the first check that reaches one, or
        none while the given rounds last. */
    method Wait(rs: seq<Round>) returns (v: Option<Verdict>, n: nat)
      requires progressChunks == 0
      modifies this
      ensures n <= |rs| && StillWaiting(cfg, rs, n)
      ensures v.None? ==> n == |rs|
      ensures v.Some? ==> n < |rs| && v == VerdictAt(cfg, rs, n)
      ensures cfg.enabled ==> progressChunks == HighWater(rs, n) || (n < |rs| && progressChunks == HighWater(rs, n + 1))
      ensures !cfg.enabled ==> progressChunks == 0
    {
      start, lastHeartbeat, lastProgress := now, now, now;
      if !cfg.enabled {
        v, n := WaitForHeader(rs);
        return;
      }
      ghost var t0 := now;
      var budget := ProgressBudget(cfg);
      var flatBoth := 0;
      for k := 0 to |rs|
        invariant StillWaiting(cfg, rs, k)
        invariant progressChunks == HighWater(rs, k) && flatBoth < DeadFlat(cfg)
        invariant k == 0 ==> now == t0 && lastProgress == t0 && flatBoth == 0
        invariant k > 0 ==> now == t0 + Time(cfg, rs, k - 1) && lastProgress == t0 + LastAdvance(cfg, rs, k - 1)
        invariant k > 0 ==> flatBoth == FlatCount(rs, k - 1)
      {
        n := k;
        if rs[k].doneBefore || rs[k].doneDuring { return Some(Fine), n; }
        now := now + Window(cfg);
        if rs[k].cpu1.None? { return Some(Degraded), n; }
        now := now + Sample(cfg) + rs[k].late;
        if rs[k].cpu2.None? { return Some(Degraded), n; }
        var heartbeat := rs[k].cpu2.value > rs[k].cpu1.value;
        if heartbeat { MarkHeartbeat(); }
        var advanced := false;
        if rs[k].chunks.Some? { advanced := MarkProgressChunks(rs[k].chunks.value); }
        assert advanced <==> Advanced(rs, k);
        assert now == t0 + Time(cfg, rs, k) && lastProgress == t0 + LastAdvance(cfg, rs, k);
        if !heartbeat && !advanced {
          flatBoth := flatBoth + 1;
          if flatBoth >= DeadFlat(cfg) { return Some(StuckCpuStalled), n; }
        } else {
          flatBoth := 0;
        }
        assert flatBoth == FlatCount(rs, k);
        if budget > 0 && rs[k].chunks.Some? && now - lastProgress >= budget { return Some(StuckNoProgress), n; }
      }
      return None, |rs|;
    }
  }

  // ------------------------------------------------------------ detection is exact

  lemma {:induction false} TimeGrows(c: Config, rs: seq<Round>, j: nat, k: nat)
    requires j <= k < |rs|
    ensures Time(c, rs, j) <= Time(c, rs, k)
    ensures j < k ==> Time(c, rs, j) < Time(c, rs, k)
  {
    if j < k { TimeGrows(c, rs, j, k - 1); }
  }

  /** The clock at a check: a window, a sample, and whatever the check came late by, after the one before. */
  lemma TimeIs(c: Config, rs: seq<Round>, k: nat)
    requires k < |rs|
    ensures Time(c, rs, k) - (if k == 0 then 0 else Time(c, rs, k - 1)) ==
      (if c.window <= 0 then 90_000_000_000 else c.window) + (if c.sample <= 0 then 5_000_000_000 else c.sample) + rs[k].late
  {
  }

  /** The last advance is the latest one: an advance at or before it, none after it. */
  lemma {:induction false} LastAdvanceIsLatest(c: Config, rs: seq<Round>, j: nat, k: nat)
    requires j <= k < |rs| && Advanced(rs, j)
    ensures Time(c, rs, j) <= LastAdvance(c, rs, k) <= Time(c, rs, k)
  {
    if Advanced(rs, k) {
      TimeGrows(c, rs, j, k);
    } else {
      LastAdvanceIsLatest(c, rs, j, k - 1);
      TimeGrows(c, rs, k - 1, k);
    }
  }

  /** NO PROGRESS MEANS NO PROGRESS: the verdict is given only with a positive budget and a readable
      count, and only when every check of the last budget's worth of time left the count's highest
      value where it was. */
  lemma NoProgressIsFrozen(c: Config, rs: seq<Round>, k: nat, j: nat)
    requires j <= k < |rs| && VerdictAt(c, rs, k) == Some(StuckNoProgress)
    ensures ProgressBudget(c) > 0 && rs[k].chunks.Some?
    ensures Time(c, rs, j) > Time(c, rs, k) - ProgressBudget(c) ==>
      !Advanced(rs, j) && HighWater(rs, j + 1) == HighWater(rs, j)
  {
    if Advanced(rs, j) { LastAdvanceIsLatest(c, rs, j, k); }
  }

  /** A check at which the response is still out and every reading can be read. */
  predicate Observed(r: Round) {
    !r.doneBefore && !r.doneDuring && Readable(r) && r.chunks.Some?
  }

  predicate JudgedStuck(c: Config, rs: seq<Round>, k: nat)
    requires k < |rs|
  {
    VerdictAt(c, rs, k) == Some(StuckNoProgress) || VerdictAt(c, rs, k) == Some(StuckCpuStalled)
  }

  /** DETECTION IS BOUNDED: once a readable count has stood still for the budget, since the start of
      the wait or since the advance just before check `from`, some check has judged it stuck, less than
      budget plus one pass (window, sample and lateness) after the last advance, whatever the CPU did. */
  lemma {:induction false} DetectionBound(c: Config, rs: seq<Round>, from: nat, k: nat)
    requires from <= k < |rs| && c.enabled && ProgressBudget(c) > 0
    requires from == 0 || Advanced(rs, from - 1)
    requires forall i :: from <= i <= k ==> Observed(rs[i]) && !Advanced(rs, i)
    requires Frozen(c, rs, k) >= ProgressBudget(c)
    ensures exists j :: from <= j <= k && JudgedStuck(c, rs, j)
                     && Frozen(c, rs, j) < ProgressBudget(c) + Window(c) + Sample(c) + rs[j].late
  {
    if k > from && Frozen(c, rs, k - 1) >= ProgressBudget(c) {
      DetectionBound(c, rs, from, k - 1);
    } else {
      if k > 0 {
        assert Frozen(c, rs, k) == Frozen(c, rs, k - 1) + Took(c, rs[k]);
        assert k == from ==> Frozen(c, rs, k - 1) == 0;
      } else {
        assert Frozen(c, rs, 0) == Took(c, rs[0]);
      }
      assert JudgedStuck(c, rs, k);
    }
  }

  /** A count that rises at every check is never judged stuck, however slow. */
  lemma GrowingIsNeverStuck(c: Config, rs: seq<Round>, k: nat)
    requires k < |rs| && Advanced(rs, k)
    ensures !JudgedStuck(c, rs, k)
  {
    assert Frozen(c, rs, k) == 0;
  }

  /** The early verdict needs its full run of checks at which both clocks stood still. */
  lemma {:induction false} FlatCountIsRun(rs: seq<Round>, k: nat, n: nat)
    requires k < |rs| && n > 0
    ensures FlatCount(rs, k) >= n <==> n <= k + 1 && forall j :: k + 1 - n <= j <= k ==> Flat(rs, j)
    decreases k
  {
    if Flat(rs, k) && n > 1 && k > 0 {
      FlatCountIsRun(rs, k - 1, n - 1);
      if n <= k + 1 && forall j :: k - 1 + 1 - (n - 1) <= j <= k - 1 ==> Flat(rs, j) {
        forall j | k + 1 - n <= j <= k ensures Flat(rs, j) {}
      }
    } else if n == 1 {
      assert Flat(rs, k) ==> forall j :: k <= j <= k ==> Flat(rs, j);
    }
  }

  lemma StalledIsExact(c: Config, rs: seq<Round>, k: nat)
    requires k < |rs| && c.enabled && !rs[k].doneBefore && !rs[k].doneDuring && Readable(rs[k])
    ensures VerdictAt(c, rs, k) == Some(StuckCpuStalled) <==>
      DeadFlat(c) <= k + 1 && forall j :: k + 1 - DeadFlat(c) <= j <= k ==> Flat(rs, j)
  {
    FlatCountIsRun(rs, k, DeadFlat(c));
  }

  // ------------------------------------------------------------ what follows a verdict

  datatype Event = AskedToExit | GraceOver | HardStopped

  datatype Action = StalledGrace | StalledHard | Abandoned

  const DEFAULT_MAX_STALE_KILLS := 3

  function MaxStaleKills(max: int): (m: nat)
    ensures m > 0
  {
    if max <= 0 then DEFAULT_MAX_STALE_KILLS else max
  }

  /** Every hard stop in `log` comes right after a request to exit whose grace ran out. */
  ghost predicate HardOnlyAfterGrace(log: seq<Event>) {
    forall k :: 0 <= k < |log| && log[k].HardStopped? ==> k >= 2 && log[k - 1].GraceOver? && log[k - 2].AskedToExit?
  }

  /** One egg, with the judgements already spent on it and everything done to it. */
  class Judged {
    var staleKills: nat
    var abandoned: bool
    var crashed: bool                 // its state in the table of model processes
    ghost var log: seq<Event>

    constructor ()
      ensures staleKills == 0 && !abandoned && !crashed && log == []
    {
      staleKills, abandoned, crashed, log := 0, false, false, [];
    }

    method RecordStaleKill(max: int) returns (n: nat, over: bool)
      modifies this`staleKills, this`abandoned, this`crashed
      ensures n == staleKills == old(staleKills) + 1
      ensures over <==> n > MaxStaleKills(max)
      ensures (abandoned <==> old(abandoned) || over) && (crashed <==> old(crashed) || over)
    {
      staleKills := staleKills + 1;
      if staleKills > MaxStaleKills(max) {
        abandoned, crashed := true, true;
        return staleKills, true;
      }
      return staleKills, false;
    }

    /** The two stages; `counted` is the number of kills the caller has recorded, this one included,
        and it is counted once more here.  `exits` tells whether the engine goes on its own, at once
        or within the grace; without it only the grace can end the wait. */
    method EscalateStall(counted: nat, max: int, exits: Option<(bool, bool)>) returns (action: Action)
      modifies this`log
      ensures action.Abandoned? <==> counted + 1 > MaxStaleKills(max)
      ensures action.Abandoned? ==> log == old(log)
      ensures !action.Abandoned? ==> (action.StalledGrace? <==> GoesItself(exits))
      ensures action.StalledGrace? ==> exits.Some? && (exits.value.0 || exits.value.1)
      ensures action.StalledHard? ==> exits.None? || exits == Some((false, false))
      ensures action.StalledGrace? ==> log == old(log) + [AskedToExit]
      ensures action.StalledHard? ==> log == old(log) + [AskedToExit, GraceOver, HardStopped]
      ensures old(HardOnlyAfterGrace(log)) ==> HardOnlyAfterGrace(log)
    {
      if counted + 1 > MaxStaleKills(max) { return Abandoned; }
      log := log + [AskedToExit];
      if GoesItself(exits) { return StalledGrace; }
      log := log + [GraceOver];
      log := log + [HardStopped];
      return StalledHard;
    }

    /** A stuck verdict while a request for this egg waits for its header: the kill is recorded, and
        recorded again by the escalation.  `ours` tells whether afterwards the egg still carries its
        name in the table and is not pinned; only then it is noted as crashed. */
    method HandleStuck(max: int, exits: Option<(bool, bool)>, ours: bool) returns (action: Action)
      modifies this
      ensures staleKills == old(staleKills) + 1
      ensures action.Abandoned? <==> !Acts(old(staleKills), max)
      ensures !action.Abandoned? ==> (action.StalledGrace? <==> GoesItself(exits))
      ensures abandoned <==> old(abandoned) || old(staleKills) + 1 > MaxStaleKills(max)
      ensures crashed <==> old(crashed) || ours || old(staleKills) + 1 > MaxStaleKills(max)
      ensures log == old(log) + Deeds(HeaderWait(exits), old(staleKills), max)
      ensures old(HardOnlyAfterGrace(log)) ==> HardOnlyAfterGrace(log)
    {
      var n, over := RecordStaleKill(max);
      if over {
        log := log + [AskedToExit];       // the request is cancelled; nothing is stopped
        return Abandoned;
      }
      action := EscalateStall(n, max, exits);
      if ours { crashed := true; }
    }

    /** A stuck verdict of the guard on a response body: the request is cancelled before the kill is
        recorded, and what the record says is not looked at.  An early verdict ends there; one by the
        budget gives the stream the grace to end and then stops the egg.  `ours` and `still` are what
        the two notes find (see HandleStuck). */
    method HandleGuard(max: int, early: bool, ends: bool, ours: bool, still: bool)
      modifies this
      ensures staleKills == old(staleKills) + 1
      ensures abandoned <==> old(abandoned) || old(staleKills) + 1 > MaxStaleKills(max)
      ensures crashed <==> old(crashed) || ours || (!early && !ends && still) || old(staleKills) + 1 > MaxStaleKills(max)
      ensures log == old(log) + Deeds(BodyGuard(early, ends), old(staleKills), max)
      ensures old(HardOnlyAfterGrace(log)) ==> HardOnlyAfterGrace(log)
    {
      log := log + [AskedToExit];
      var _, _ := RecordStaleKill(max);
      if ours { crashed := true; }
      if early || ends { return; }
      log := log + [GraceOver];
      log := log + [HardStopped];
      if still { crashed := true; }
    }
  }

  /** The engine goes on its own, at once or within the grace. */
  predicate GoesItself(exits: Option<(bool, bool)>) {
    exits.Some? && (exits.value.0 || exits.value.1)
  }

  /** One judgement on an egg: by the wait for a header, or by the guard on a body. */
  datatype Judgement =
    | HeaderWait(exits: Option<(bool, bool)>)
    | BodyGuard(early: bool, ends: bool)

  /** Whether a judgement of the header wait is acted on, after `spent` earlier judgements. */
  predicate Acts(spent: nat, max: int) {
    spent + 2 <= MaxStaleKills(max)
  }

  /** What one judgement does to the egg.  In the header wait the request is still cancelled past the
      limit; at the limit itself nothing is done at all. */
  function Deeds(j: Judgement, spent: nat, max: int): seq<Event> {
    match j
    case HeaderWait(exits) =>
      if spent + 1 > MaxStaleKills(max) then [AskedToExit]
      else if !Acts(spent, max) then []
      else if GoesItself(exits) then [AskedToExit]
      else [AskedToExit, GraceOver, HardStopped]
    case BodyGuard(early, ends) =>
      if early || ends then [AskedToExit] else [AskedToExit, GraceOver, HardStopped]
  }

  /** Everything done to an egg in the course of some judgements, one after another. */
  function Course(js: seq<Judgement>, max: int): seq<Event> {
    if js == [] then []
    else
      var k := |js| - 1;
      Course(js[..k], max) + Deeds(js[k], k, max)
  }

  /** GRACEFUL FIRST: whichever of the two judges, in whatever order, no hard stop comes without a
      request to exit and an expired grace right before it. */
  lemma {:induction false} CourseIsGraceful(js: seq<Judgement>, max: int)
    ensures HardOnlyAfterGrace(Course(js, max))
  {
    if js != [] {
      var k := |js| - 1;
      CourseIsGraceful(js[..k], max);
      GracefulThen(Course(js[..k], max), Deeds(js[k], k, max));
    }
  }

  lemma GracefulThen(before: seq<Event>, deeds: seq<Event>)
    requires HardOnlyAfterGrace(before)
    requires deeds in {[], [AskedToExit], [AskedToExit, GraceOver, HardStopped]}
    ensures HardOnlyAfterGrace(before + deeds)
  {
  }

  // ------------------------------------------------------------ how many are acted on

  /** How many judgements of the header wait are acted on. */
  function Acted(js: seq<Judgement>, max: int): nat {
    if js == [] then 0
    else
      var k := |js| - 1;
      Acted(js[..k], max) + if js[k].HeaderWait? && Acts(k, max) then 1 else 0
  }

  function HeaderWaits(js: seq<Judgement>): nat {
    if js == [] then 0
    else
      var k := |js| - 1;
      HeaderWaits(js[..k]) + if js[k].HeaderWait? then 1 else 0
  }

  /** The judgements that come while a header wait would still act: the first `limit - 1`. */
  function Early(js: seq<Judgement>, max: int): seq<Judgement> {
    var n := MaxStaleKills(max) - 1;
    if |js| <= n then js else js[..n]
  }

  function Late(js: seq<Judgement>, max: int): seq<Judgement> {
    js[|Early(js, max)|..]
  }

  /** ONE FEWER THAN THE LIMIT: because the header wait counts each of its kills twice, exactly its
      judgements among the first `limit - 1` kills of an egg are acted on. */
  lemma {:induction false} ActedExactly(js: seq<Judgement>, max: int)
    ensures Acted(js, max) == HeaderWaits(Early(js, max)) <= MaxStaleKills(max) - 1
  {
    if js != [] {
      var k := |js| - 1;
      ActedExactly(js[..k], max);
      if |js| > MaxStaleKills(max) - 1 { assert Early(js[..k], max) == Early(js, max); }
      WaitsOrGuards(Early(js, max));
    }
  }

  /** Whether the request is cancelled as the first stage of an escalation.  The guard always does; the
      header wait only when it acts (past the limit it cancels to give up). */
  predicate Escalates(j: Judgement, spent: nat, max: int) {
    j.BodyGuard? || Acts(spent, max)
  }

  function Escalations(js: seq<Judgement>, max: int): nat {
    if js == [] then 0
    else
      var k := |js| - 1;
      Escalations(js[..k], max) + if Escalates(js[k], k, max) then 1 else 0
  }

  function BodyGuards(js: seq<Judgement>): nat {
    if js == [] then 0
    else
      var k := |js| - 1;
      BodyGuards(js[..k]) + if js[k].BodyGuard? then 1 else 0
  }

  lemma {:induction false} WaitsOrGuards(js: seq<Judgement>)
    ensures HeaderWaits(js) + BodyGuards(js) == |js|
  {
    if js != [] { WaitsOrGuards(js[..|js| - 1]); }
  }

  lemma {:induction false} BodyGuardsSplit(js: seq<Judgement>, n: nat)
    requires n <= |js|
    ensures BodyGuards(js) == BodyGuards(js[..n]) + BodyGuards(js[n..])
  {
    if n < |js| {
      var k := |js| - 1;
      BodyGuardsSplit(js[..k], n);
      assert js[..k][..n] == js[..n] && js[..k][n..] == js[n..][..k - n];
    } else {
      assert js[..n] == js;
    }
  }

  lemma {:induction false} EscalationsAre(js: seq<Judgement>, max: int)
    ensures Escalations(js, max) == Acted(js, max) + BodyGuards(js)
  {
    if js != [] { EscalationsAre(js[..|js| - 1], max); }
  }

  /** HOW OFTEN IT IS ESCALATED: at every one of the first `limit - 1` kills, and at every later kill
      by a body guard. */
  lemma EscalationsExact(js: seq<Judgement>, max: int)
    ensures Escalations(js, max) == |Early(js, max)| + BodyGuards(Late(js, max))
  {
    EscalationsAre(js, max);
    ActedExactly(js, max);
    BodyGuardsSplit(js, |Early(js, max)|);
    assert js[..|Early(js, max)|] == Early(js, max);
    WaitsOrGuards(Early(js, max));
  }

  /** THE LIMIT ON ESCALATIONS: kept exactly when at most one body guard kills after the first
      `limit - 1` kills; so always as long as no kill exceeds the limit. */
  lemma EscalationsBoundedIff(js: seq<Judgement>, max: int)
    ensures Escalations(js, max) <= MaxStaleKills(max) <==> BodyGuards(Late(js, max)) <= 1
    ensures |js| <= MaxStaleKills(max) ==> Escalations(js, max) <= MaxStaleKills(max)
  {
    EscalationsExact(js, max);
    WaitsOrGuards(Late(js, max));
  }

  function Requests(log: seq<Event>): nat {
    if log == [] then 0 else Requests(log[..|log| - 1]) + if log[|log| - 1].AskedToExit? then 1 else 0
  }

  /** The kills that exceed the limit. */
  function Over(js: seq<Judgement>, max: int): seq<Judgement> {
    if |js| <= MaxStaleKills(max) then [] else js[MaxStaleKills(max)..]
  }

  lemma {:induction false} RequestsAppend(log: seq<Event>, more: seq<Event>)
    ensures Requests(log + more) == Requests(log) + Requests(more)
  {
    if more == [] {
      assert log + more == log;
    } else {
      var n := |more| - 1;
      assert (log + more)[..|log| + n] == log + more[..n];
      RequestsAppend(log, more[..n]);
    }
  }

  /** Every request to exit is the first stage of an escalation or a header wait giving up. */
  lemma {:induction false} RequestsExact(js: seq<Judgement>, max: int)
    ensures Requests(Course(js, max)) == Escalations(js, max) + HeaderWaits(Over(js, max))
  {
    if js != [] {
      var k := |js| - 1;
      RequestsExact(js[..k], max);
      RequestsAppend(Course(js[..k], max), Deeds(js[k], k, max));
      RequestsOf(js[k], k, max);
      OverStep(js, max);
    }
  }

  lemma OverStep(js: seq<Judgement>, max: int)
    requires js != []
    ensures var k := |js| - 1;
      HeaderWaits(Over(js, max)) == HeaderWaits(Over(js[..k], max)) + if js[k].HeaderWait? && k + 1 > MaxStaleKills(max) then 1 else 0
  {
    if |js| > MaxStaleKills(max) { assert Over(js, max)[..|Over(js, max)| - 1] == Over(js[..|js| - 1], max); }
  }

  lemma RequestsOf(j: Judgement, spent: nat, max: int)
    ensures Requests(Deeds(j, spent, max)) == if Escalates(j, spent, max) || spent + 1 > MaxStaleKills(max) then 1 else 0
  {
    assert [AskedToExit, GraceOver, HardStopped][..2] == [AskedToExit, GraceOver];
    assert [AskedToExit, GraceOver][..1] == [AskedToExit] && [AskedToExit][..0] == [];
  }

  lemma {:induction false} GuardsEscalate(js: seq<Judgement>, max: int)
    requires forall j :: j in js ==> j.BodyGuard?
    ensures Escalations(js, max) == |js|
  {
    if js != [] { GuardsEscalate(js[..|js| - 1], max); }
  }

  /** Four kills by body guards. */
  const FOUR_GUARDS: seq<Judgement> := [BodyGuard(false, true), BodyGuard(false, true), BodyGuard(false, true), BodyGuard(false, true)]

  /** With the default limit of three all four are escalations. */
  lemma GuardsExceedTheLimit()
    ensures Escalations(FOUR_GUARDS, DEFAULT_MAX_STALE_KILLS) == 4 > MaxStaleKills(DEFAULT_MAX_STALE_KILLS)
  {
    GuardsEscalate(FOUR_GUARDS, DEFAULT_MAX_STALE_KILLS);
  }
}

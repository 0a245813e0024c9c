/**
"Does it fit": the estimate of what a model needs, what the machine has now and after evictions, and
the verdict.  Sizes in GiB are reals and bytes are integers; a conversion cuts the fraction off.
*/
module FitEstimate {
  import opened Wrappers
  import opened Resources
  import opened EvictionPlan

  datatype Query = Query(ctx: int, weights: int, nLayer: int, nKvHeads: int, headDim: int, bytesPerElem: real,
                         family: string)

  datatype Ledger = Ledger(memAvail: real, vramTotal: real, vramFree: real, residents: seq<Entry>, overheadGb: real,
                           unified: bool)
  {
    predicate VramKnown() {
      vramTotal > 0.0
    }
  }

  datatype Verdict = Fit | Evict | NoFit

  datatype Estimate = Estimate(weights: int, kv: int, overhead: int, need: int, freeNow: int, free: int, vramNeed: int,
                               vramFree: int, verdict: Verdict, plan: seq<string>, estimated: bool)

  const GIB: int := 0x4000_0000
  const DEFAULT_BYTES_PER_ELEM := 2.0
  const DEFAULT_OVERHEAD_GB := 2.0

  /** Truncation toward zero. */
  function Trunc(x: real): int {
    if x >= 0.0 then x.Floor else -(-x).Floor
  }

  function Bytes(gb: real): int {
    Trunc(gb * GIB as real)
  }

  function Gb(bytes: int): real {
    bytes as real / GIB as real
  }

  /** KV heads and head size per architecture family; families not listed are unknown. */
  function Fallback(family: string): Option<(nat, nat)> {
    if family == "llama" || family == "mistral" || family == "command-r" then Some((8, 128))
    else if family == "qwen2" || family == "qwen3" then Some((4, 128))
    else if family == "gemma2" || family == "gemma3" then Some((4, 256))
    else if family == "phi3" then Some((8, 96))
    else None
  }

  // ------------------------------------------------------------ what is needed

  predicate KvKnown(q: Query) {
    (q.nKvHeads > 0 && q.headDim > 0) || Fallback(q.family).Some?
  }

  /** Everything the estimate refuses to guess is given. */
  predicate Known(q: Query, m: Ledger) {
    && q.weights > 0 && q.ctx > 0 && q.nLayer > 0
    && m.memAvail >= 0.0 && m.vramFree >= 0.0
    && KvKnown(q)
    && (m.VramKnown() || m.unified)
  }

  function KvHeads(q: Query): int
    requires KvKnown(q)
  {
    if q.nKvHeads > 0 then q.nKvHeads else Fallback(q.family).value.0
  }

  function HeadDim(q: Query): int
    requires KvKnown(q)
  {
    if q.headDim > 0 then q.headDim else Fallback(q.family).value.1
  }

  function ElemBytes(q: Query): real {
    if q.bytesPerElem > 0.0 then q.bytesPerElem else DEFAULT_BYTES_PER_ELEM
  }

  function OverheadGb(m: Ledger): real {
    if m.overheadGb > 0.0 then m.overheadGb else DEFAULT_OVERHEAD_GB
  }

  function KvBytes(layers: int, heads: int, dim: int, elem: real, ctx: int): int {
    Trunc(2.0 * layers as real * heads as real * dim as real * elem * ctx as real)
  }

  function Need(q: Query, m: Ledger): int
    requires KvKnown(q)
  {
    q.weights + KvBytes(q.nLayer, KvHeads(q), HeadDim(q), ElemBytes(q), q.ctx) + Bytes(OverheadGb(m))
  }

  /** Something was guessed from a constant. */
  predicate Guessed(q: Query, m: Ledger) {
    q.nKvHeads <= 0 || q.headDim <= 0 || q.bytesPerElem <= 0.0 || m.overheadGb <= 0.0
  }

  // ------------------------------------------------------------ what there is

  /** The need is covered, in memory and in any separate graphics memory, once `freed` is given back. */
  predicate Covered(need: int, m: Ledger, freed: real) {
    need <= Bytes(m.memAvail + freed) && (m.VramKnown() ==> need <= Bytes(m.vramFree + freed))
  }

  function EvictableGb(m: Ledger): real {
    Sum(Filter(NOT_PROTECTED, m.residents))
  }

  function VerdictOf(need: int, m: Ledger): Verdict {
    if Covered(need, m, 0.0) then Fit else if Covered(need, m, EvictableGb(m)) then Evict else NoFit
  }

  function Max(a: int, b: int): int {
    if a > b then a else b
  }

  /** The larger of the two shortfalls, in GiB. */
  function DeficitGb(need: int, m: Ledger): real {
    var mem := need - Bytes(m.memAvail);
    Gb(Max(0, if m.VramKnown() && need > Bytes(m.vramFree) then Max(mem, need - Bytes(m.vramFree)) else mem))
  }

  // ------------------------------------------------------------ the estimate

  method EvictableOccupied(es: seq<Entry>) returns (sum: real)
    ensures sum == Sum(Filter(NOT_PROTECTED, es))
  {
    sum := 0.0;
    for k := 0 to |es|
      invariant sum == Sum(Filter(NOT_PROTECTED, es[..k]))
    {
      assert es[..k + 1] == es[..k] + [es[k]];
      FilterSnoc(NOT_PROTECTED, es[..k], es[k]);
      SumSnoc(Filter(NOT_PROTECTED, es[..k]), es[k]);
      if !es[k].Protected() { sum := sum + es[k].Occupied(); }
    }
    assert es[..|es|] == es;
  }

  lemma {:induction false} SumSnoc(es: seq<Entry>, e: Entry)
    ensures Sum(es + [e]) == Sum(es) + e.Occupied()
  {
    if es == [] {
      assert es + [e] == [e];
    } else {
      assert (es + [e])[1..] == es[1..] + [e];
      SumSnoc(es[1..], e);
    }
  }

  /** EstimateFit: refused input is "no fit" and marked as estimated; otherwise the verdict says
      whether the need is covered now, after evicting all that may be, or not at all. */
  method EstimateFit(q: Query, m: Ledger) returns (est: Estimate)
    ensures !Known(q, m) ==> est.verdict == NoFit && est.estimated && est.plan == []
    ensures q.weights <= 0 || q.ctx <= 0 || q.nLayer <= 0 ==> est.verdict == NoFit && est.estimated && est.plan == []
    ensures m.memAvail < 0.0 || m.vramFree < 0.0 ==> est.verdict == NoFit && est.estimated && est.plan == []
    ensures m.vramTotal <= 0.0 && !m.unified ==> est.verdict == NoFit && est.estimated && est.plan == []
    ensures Known(q, m) && (q.nKvHeads <= 0 || q.headDim <= 0 || q.bytesPerElem <= 0.0 || m.overheadGb <= 0.0) ==> est.estimated
    ensures Known(q, m) ==> est.need == Need(q, m) && est.verdict == VerdictOf(est.need, m)
    ensures Known(q, m) ==> (est.estimated <==> Guessed(q, m))
    ensures Known(q, m) ==> est.need == est.weights + est.kv + est.overhead && est.weights == q.weights
    ensures Known(q, m) ==> est.freeNow == Bytes(m.memAvail) && est.free == Bytes(m.memAvail + EvictableGb(m))
    ensures Known(q, m) && m.VramKnown() ==> est.vramNeed == est.need && est.vramFree == Bytes(m.vramFree)
    ensures Known(q, m) ==> est.plan == if est.verdict == Evict then ToFree(m.residents, DeficitGb(est.need, m)) else []
  {
    est := Estimate(0, 0, 0, 0, 0, 0, 0, 0, NoFit, [], true);
    if q.weights <= 0 || q.ctx <= 0 || q.nLayer <= 0 || m.memAvail < 0.0 || m.vramFree < 0.0 { return; }
    var kv, guessed := KvCache(q);
    if kv.None? { return est.(weights := q.weights); }
    var overheadGb := m.overheadGb;
    if overheadGb <= 0.0 { overheadGb, guessed := DEFAULT_OVERHEAD_GB, true; }
    var need := q.weights + kv.value + Bytes(overheadGb);
    est := est.(weights := q.weights, kv := kv.value, overhead := Bytes(overheadGb), need := need);
    var evictableGb := EvictableOccupied(m.residents);
    est := est.(freeNow := Bytes(m.memAvail), free := Bytes(m.memAvail + evictableGb));
    if !m.VramKnown() && !m.unified { return; }
    var verdict, plan := Judge(need, evictableGb, m);
    if m.VramKnown() { est := est.(vramNeed := need, vramFree := Bytes(m.vramFree)); }
    est := est.(verdict := verdict, plan := plan, estimated := guessed);
  }

  /** The KV cache, from the model's own numbers or its family's. */
  method KvCache(q: Query) returns (kv: Option<int>, guessed: bool)
    ensures kv.Some? <==> KvKnown(q)
    ensures kv.Some? ==> kv.value == KvBytes(q.nLayer, KvHeads(q), HeadDim(q), ElemBytes(q), q.ctx)
    ensures kv.Some? ==> (guessed <==> q.nKvHeads <= 0 || q.headDim <= 0 || q.bytesPerElem <= 0.0)
  {
    var kvHeads, headDim, bpe := q.nKvHeads, q.headDim, q.bytesPerElem;
    var fb := Fallback(q.family);
    guessed := false;
    if (kvHeads <= 0 || headDim <= 0) && fb.None? { return None, guessed; }
    if kvHeads <= 0 { kvHeads, guessed := fb.value.0, true; }
    if headDim <= 0 { headDim, guessed := fb.value.1, true; }
    if bpe <= 0.0 { bpe, guessed := DEFAULT_BYTES_PER_ELEM, true; }
    kv := Some(KvBytes(q.nLayer, kvHeads, headDim, bpe, q.ctx));
  }

  /** The verdict and, for "evict", whom to evict for the larger shortfall. */
  method Judge(need: int, evictableGb: real, m: Ledger) returns (verdict: Verdict, plan: seq<string>)
    requires evictableGb == EvictableGb(m)
    ensures verdict == VerdictOf(need, m)
    ensures plan == if verdict == Evict then ToFree(m.residents, DeficitGb(need, m)) else []
  {
    var freeNow := Bytes(m.memAvail);
    assert m.memAvail + 0.0 == m.memAvail && m.vramFree + 0.0 == m.vramFree;
    var vramNowOk := m.VramKnown() ==> need <= Bytes(m.vramFree);
    var vramEvictOk := m.VramKnown() ==> need <= Bytes(m.vramFree + evictableGb);
    verdict, plan := NoFit, [];
    if need <= freeNow && vramNowOk {
      verdict := Fit;
    } else if need <= Bytes(m.memAvail + evictableGb) && vramEvictOk {
      verdict := Evict;
      var deficit := need - freeNow;
      if m.VramKnown() && !vramNowOk {
        var vd := need - Bytes(m.vramFree);
        if vd > deficit { deficit := vd; }
      }
      if deficit < 0 { deficit := 0; }
      plan := EvictionPlan.EvictToFree(m.residents, Gb(deficit));
    }
  }

  // ------------------------------------------------------------ what the numbers are

  /** KEYS AND VALUES: two per layer, head, component and token of context, each of so many bytes, with the
      fraction of a byte cut off. */
  lemma KvExact(layers: nat, heads: nat, dim: nat, elem: real, ctx: nat)
    requires elem >= 0.0
    ensures var exact := 2.0 * layers as real * heads as real * dim as real * elem * ctx as real;
      0.0 <= exact && KvBytes(layers, heads, dim, elem, ctx) as real <= exact < KvBytes(layers, heads, dim, elem, ctx) as real + 1.0
  {
    var a := 2.0 * layers as real;
    var b := a * heads as real;
    var c := b * dim as real;
    assert a >= 0.0 && b >= 0.0 && c >= 0.0 && c * elem >= 0.0;
  }

  /** The need never falls when the context, the layers, the heads or the head size grow. */
  lemma KvGrows(layers: nat, heads: nat, dim: nat, elem: real, ctx: nat, l: nat, h: nat, d: nat, c: nat)
    requires elem >= 0.0 && layers <= l && heads <= h && dim <= d && ctx <= c
    ensures KvBytes(layers, heads, dim, elem, ctx) <= KvBytes(l, h, d, elem, c)
  {
    FiveFactors(2.0 * layers as real, heads as real, dim as real, elem, ctx as real,
                2.0 * l as real, h as real, d as real, elem, c as real);
  }

  lemma FiveFactors(a: real, b: real, c: real, d: real, e: real, p: real, q: real, r: real, s: real, t: real)
    requires 0.0 <= a <= p && 0.0 <= b <= q && 0.0 <= c <= r && 0.0 <= d <= s && 0.0 <= e <= t
    ensures 0.0 <= a * b * c * d * e <= p * q * r * s * t && Trunc(a * b * c * d * e) <= Trunc(p * q * r * s * t)
  {
    var ab, abc, abcd := a * b, a * b * c, a * b * c * d;
    var pq, pqr, pqrs := p * q, p * q * r, p * q * r * s;
    Product(a, p, b, q);
    Product(ab, pq, c, r);
    Product(abc, pqr, d, s);
    Product(abcd, pqrs, e, t);
    TruncGrows(abcd * e, pqrs * t);
  }

  lemma Product(a: real, b: real, x: real, y: real)
    requires 0.0 <= a <= b && 0.0 <= x <= y
    ensures 0.0 <= a * x <= b * y
  {
    assert a * x <= b * x && b * x <= b * y;
  }

  /** One whole element size: the exact product. */
  lemma KvWhole(layers: nat, heads: nat, dim: nat, elem: nat, ctx: nat)
    ensures KvBytes(layers, heads, dim, elem as real, ctx) == 2 * layers * heads * dim * elem * ctx
  {
    assert 2.0 * layers as real == (2 * layers) as real;
    assert (2 * layers) as real * heads as real == (2 * layers * heads) as real;
    assert (2 * layers * heads) as real * dim as real == (2 * layers * heads * dim) as real;
    assert (2 * layers * heads * dim) as real * elem as real == (2 * layers * heads * dim * elem) as real;
    assert (2 * layers * heads * dim * elem) as real * ctx as real == (2 * layers * heads * dim * elem * ctx) as real;
  }

  /** What a family's models are taken to have when the numbers are not given. */
  datatype Shape = Shape(family: string, heads: nat, dim: nat)

  const SHAPES: seq<Shape> := [
    Shape("llama", 8, 128), Shape("mistral", 8, 128), Shape("command-r", 8, 128), Shape("qwen2", 4, 128),
    Shape("qwen3", 4, 128), Shape("gemma2", 4, 256), Shape("gemma3", 4, 256), Shape("phi3", 8, 96)]

  /** WHAT IS NEEDED: the model's own numbers where they are given, its family's otherwise, two bytes an
      element and two GiB of overhead where those are not given; the weights come on top. */
  lemma NeedOutcome(q: Query, m: Ledger, k: nat)
    requires q.weights > 0 && q.ctx > 0 && q.nLayer > 0 && k < |SHAPES| && q.family == SHAPES[k].family
    ensures KvKnown(q)
    ensures Need(q, m) == q.weights
      + KvBytes(q.nLayer, if q.nKvHeads > 0 then q.nKvHeads else SHAPES[k].heads, if q.headDim > 0 then q.headDim else SHAPES[k].dim,
                if q.bytesPerElem > 0.0 then q.bytesPerElem else 2.0, q.ctx)
      + if m.overheadGb > 0.0 then Bytes(m.overheadGb) else 2 * 1024 * 1024 * 1024
  {
    assert Bytes(2.0) == 2 * GIB;
  }

  /** A family that is not listed needs both of its own numbers; without them nothing is estimated. */
  lemma UnlistedFamily(q: Query)
    requires forall k :: 0 <= k < |SHAPES| ==> q.family != SHAPES[k].family
    ensures KvKnown(q) <==> q.nKvHeads > 0 && q.headDim > 0
    ensures KvKnown(q) ==> KvHeads(q) == q.nKvHeads && HeadDim(q) == q.headDim
  {
    assert forall k :: 0 <= k < 8 ==> q.family != SHAPES[k].family;
    assert SHAPES[0].family == "llama" && SHAPES[1].family == "mistral" && SHAPES[2].family == "command-r";
    assert SHAPES[3].family == "qwen2" && SHAPES[4].family == "qwen3" && SHAPES[5].family == "gemma2";
    assert SHAPES[6].family == "gemma3" && SHAPES[7].family == "phi3";
  }

  /** Nothing else is refused: with weights, context, layers, and memory that is not negative and not unknown,
      a listed family or its own heads are enough. */
  lemma NothingElseRefused(q: Query, m: Ledger)
    requires q.weights > 0 && q.ctx > 0 && q.nLayer > 0 && m.memAvail >= 0.0 && m.vramFree >= 0.0
    requires m.vramTotal > 0.0 || m.unified
    requires (q.nKvHeads > 0 && q.headDim > 0) || exists k :: 0 <= k < |SHAPES| && q.family == SHAPES[k].family
    ensures Known(q, m)
  {
    if !(q.nKvHeads > 0 && q.headDim > 0) {
      var k :| 0 <= k < |SHAPES| && q.family == SHAPES[k].family;
      NeedOutcome(q, m, k);
    }
  }

  /** What evictions can free: what all residents without requests and active pins occupy. */
  function FreeableGb(es: seq<Entry>): real {
    if es == [] then 0.0
    else
      FreeableGb(es[1..]) +
      if es[0].reqCount > 0 || (es[0].pinned && es[0].pinRemain > 0.0) then 0.0
      else if es[0].memGb > 0.0 then es[0].memGb else es[0].rssGb
  }

  lemma {:induction false} FreeableIs(es: seq<Entry>)
    ensures FreeableGb(es) == Sum(Filter(NOT_PROTECTED, es))
  {
    if es != [] { FreeableIs(es[1..]); }
  }

  /** Whole bytes of a size in GiB. */
  lemma WholeBytes(gb: real)
    requires gb >= 0.0
    ensures Bytes(gb) as real <= gb * 1073741824.0 < Bytes(gb) as real + 1.0
  {
  }

  /** THE VERDICT, in numbers: "fit" when the memory free now, and any separate graphics memory, take the
      need; "evict" when they do with all that can be freed; "no fit" otherwise. */
  lemma VerdictOutcome(need: int, m: Ledger)
    ensures var now := need <= Bytes(m.memAvail) && (m.vramTotal > 0.0 ==> need <= Bytes(m.vramFree));
      var later := need <= Bytes(m.memAvail + FreeableGb(m.residents))
                && (m.vramTotal > 0.0 ==> need <= Bytes(m.vramFree + FreeableGb(m.residents)));
      VerdictOf(need, m) == if now then Fit else if later then Evict else NoFit
  {
    FreeableIs(m.residents);
    assert m.memAvail + 0.0 == m.memAvail && m.vramFree + 0.0 == m.vramFree;
  }

  /** THE SHORTFALL the plan is made for: what memory lacks, or graphics memory if that is separate and lacks
      more, and never below zero. */
  lemma DeficitOutcome(need: int, m: Ledger)
    ensures var d := DeficitGb(need, m) * 1073741824.0;
      && d >= 0.0 && d >= (need - Bytes(m.memAvail)) as real
      && (m.vramTotal > 0.0 ==> d >= (need - Bytes(m.vramFree)) as real)
      && (d == 0.0 || d == (need - Bytes(m.memAvail)) as real
          || (m.vramTotal > 0.0 && need > Bytes(m.vramFree) && d == (need - Bytes(m.vramFree)) as real))
  {
    var g := GIB as real;
    var mem := need - Bytes(m.memAvail);
    var deficit := Max(0, if m.VramKnown() && need > Bytes(m.vramFree) then Max(mem, need - Bytes(m.vramFree)) else mem);
    assert Gb(deficit) * g == deficit as real;
  }

  // ------------------------------------------------------------ the plan keeps the verdict's promise

  lemma TruncGrows(x: real, y: real)
    requires x <= y
    ensures Trunc(x) <= Trunc(y)
  {
  }

  lemma CoveredGrows(need: int, m: Ledger, a: real, b: real)
    requires a <= b && Covered(need, m, a)
    ensures Covered(need, m, b)
  {
    TruncGrows((m.memAvail + a) * GIB as real, (m.memAvail + b) * GIB as real);
    TruncGrows((m.vramFree + a) * GIB as real, (m.vramFree + b) * GIB as real);
  }

  /** Rounding on both sides of a shortfall never leaves a byte missing. */
  lemma ShortfallCovers(need: int, have: real, deficit: int, freed: real)
    requires have >= 0.0 && need >= 0 && freed >= Gb(deficit) && deficit >= need - Bytes(have) && freed >= 0.0
    ensures need <= Bytes(have + freed)
  {
    var g := GIB as real;
    assert Gb(deficit) * g == deficit as real;
    assert freed * g >= deficit as real;
    assert Bytes(have) as real <= have * g;
    assert (have + freed) * g == have * g + freed * g;
    assert need as real <= (have + freed) * g;
  }

  lemma DeficitCovers(need: int, m: Ledger, freed: real)
    requires m.memAvail >= 0.0 && m.vramFree >= 0.0 && need >= 0 && freed >= DeficitGb(need, m) && freed >= 0.0
    ensures Covered(need, m, freed)
  {
    var mem := need - Bytes(m.memAvail);
    var deficit := Max(0, if m.VramKnown() && need > Bytes(m.vramFree) then Max(mem, need - Bytes(m.vramFree)) else mem);
    ShortfallCovers(need, m.memAvail, deficit, freed);
    if m.VramKnown() {
      if need > Bytes(m.vramFree) { ShortfallCovers(need, m.vramFree, deficit, freed); }
      else { TruncGrows(m.vramFree * GIB as real, (m.vramFree + freed) * GIB as real); }
    }
  }

  ghost predicate NonNegative(es: seq<Entry>) {
    forall e :: e in es ==> e.Occupied() >= 0.0
  }

  lemma {:induction false} PrefixSum(es: seq<Entry>, k: nat)
    requires k <= |es| && NonNegative(es)
    ensures 0.0 <= Sum(es[..k]) <= Sum(es)
  {
    if k == 0 {
      SumNonNegative(es);
    } else {
      assert es[..k][1..] == es[1..][..k - 1];
      assert NonNegative(es[1..]) by { assert es == [es[0]] + es[1..]; }
      PrefixSum(es[1..], k - 1);
    }
  }

  lemma {:induction false} SumNonNegative(es: seq<Entry>)
    requires NonNegative(es)
    ensures Sum(es) >= 0.0
  {
    if es != [] {
      assert NonNegative(es[1..]) by { assert es == [es[0]] + es[1..]; }
      SumNonNegative(es[1..]);
    }
  }

  /** The residents an eviction plan can name. */
  function Nameable(m: Ledger): seq<Entry> {
    Filter(ADDRESSABLE, Ranking(m.residents))
  }

  function Planned(need: int, m: Ledger): seq<Entry> {
    Take(Nameable(m), DeficitGb(need, m))
  }

  lemma NeedPositive(q: Query, m: Ledger)
    requires Known(q, m)
    ensures Need(q, m) >= 0
  {
    KvExact(q.nLayer, KvHeads(q), HeadDim(q), ElemBytes(q), q.ctx);
    assert OverheadGb(m) * GIB as real >= 0.0;
  }

  lemma EvictHasDeficit(need: int, m: Ledger)
    requires VerdictOf(need, m) == Evict
    ensures DeficitGb(need, m) > 0.0
  {
    assert m.memAvail + 0.0 == m.memAvail && m.vramFree + 0.0 == m.vramFree;
  }

  /** The plan for a need names precisely `Planned`, and removing those residents covers the need if
      and only if the nameable residents together would. */
  lemma PlanCoversIff(need: int, m: Ledger)
    requires need >= 0 && m.memAvail >= 0.0 && m.vramFree >= 0.0
    requires NonNegative(m.residents) && VerdictOf(need, m) == Evict
    ensures ToFree(m.residents, DeficitGb(need, m)) == Names(m.residents, Planned(need, m))
    ensures Covered(need, m, Sum(Planned(need, m))) <==> Covered(need, m, Sum(Nameable(m)))
  {
    var es := Nameable(m);
    var d := DeficitGb(need, m);
    EvictHasDeficit(need, m);
    RankingMembers(m.residents);
    FilterHolds(ADDRESSABLE, Ranking(m.residents));
    TakeIsShortest(es, d);
    PrefixSum(es, |Take(es, d)|);
    if Sum(Take(es, d)) >= d { DeficitCovers(need, m, Sum(Take(es, d))); }
    if Covered(need, m, Sum(Take(es, d))) { CoveredGrows(need, m, Sum(Take(es, d)), Sum(es)); }
  }

  /** EXACTLY WHEN AN "EVICT" VERDICT IS KEPT, for every query and ledger the estimate does not refuse:
      removing exactly the residents its plan names covers the need if and only if the residents that
      can be named would, in memory and in graphics memory, whatever the rounding. */
  lemma EvictKeptIff(q: Query, m: Ledger)
    requires NonNegative(m.residents)
    requires Known(q, m) && VerdictOf(Need(q, m), m) == Evict
    ensures ToFree(m.residents, DeficitGb(Need(q, m), m)) == Names(m.residents, Planned(Need(q, m), m))
    ensures NulFree(m.residents) ==> Names(m.residents, Planned(Need(q, m), m)) == Targets(Planned(Need(q, m), m))
    ensures forall e :: e in Planned(Need(q, m), m) ==> e in m.residents && !e.Protected() && e.Addressable()
    ensures Covered(Need(q, m), m, Sum(Planned(Need(q, m), m))) <==> Covered(Need(q, m), m, Sum(Nameable(m)))
  {
    NeedPositive(q, m);
    PlanCoversIff(Need(q, m), m);
    TakenFrom(m.residents, DeficitGb(Need(q, m), m));
    if NulFree(m.residents) {
      NulFreeNames(m.residents);
      NamesOwn(m.residents, Planned(Need(q, m), m));
    }
  }

  /** When every evictable resident can be named, an "evict" verdict is always kept. */
  lemma EvictIsKept(q: Query, m: Ledger)
    requires NonNegative(m.residents)
    requires Known(q, m) && VerdictOf(Need(q, m), m) == Evict
    requires forall e :: e in m.residents && !e.Protected() ==> e.Addressable()
    ensures Covered(Need(q, m), m, Sum(Planned(Need(q, m), m)))
  {
    RankingMembers(m.residents);
    FilterAll(ADDRESSABLE, Ranking(m.residents));
    SortSame(Filter(NOT_PROTECTED, m.residents));
    SumOfAnyOrder(Ranking(m.residents), Filter(NOT_PROTECTED, m.residents));
    EvictKeptIff(q, m);
  }

  const NAMELESS: Entry := Entry("", "", Idle, 0.0, 0, 0.0, true, 8.0, 0, false, 0.0, false)
  const FULL: Ledger := Ledger(0.0, 0.0, 0.0, [NAMELESS], 1.0, true)

  const SMALL: Query := Query(1, 1, 1, 1, 1, 1.0, "llama")

  /** Without names the verdict can be empty words: a resident that cannot be addressed counts as
      room to be made, and the plan does not contain it. */
  lemma NamelessIsNotKept()
    ensures Known(SMALL, FULL) && UniqueKeys(FULL.residents) && NonNegative(FULL.residents)
    ensures VerdictOf(Need(SMALL, FULL), FULL) == Evict && ToFree(FULL.residents, DeficitGb(Need(SMALL, FULL), FULL)) == []
    ensures !Covered(Need(SMALL, FULL), FULL, Sum(Planned(Need(SMALL, FULL), FULL)))
  {
    SmallNeed();
    NamelessRanking();
    assert EvictableGb(FULL) == 8.0;
    assert Nameable(FULL) == [];
  }

  lemma SmallNeed()
    ensures Known(SMALL, FULL) && Need(SMALL, FULL) == GIB + 3
  {
    assert KvBytes(1, 1, 1, 1.0, 1) == 2;
    assert Bytes(1.0) == GIB;
  }

  lemma NamelessRanking()
    ensures Filter(NOT_PROTECTED, FULL.residents) == [NAMELESS] && Sum([NAMELESS]) == 8.0
    ensures Filter(ADDRESSABLE, Ranking(FULL.residents)) == []
  {
    var es := FULL.residents;
    assert Filter(NOT_PROTECTED, es[1..]) == [];
    assert Sort([NAMELESS][1..]) == [];
    assert Ranking(es) == [NAMELESS];
    assert Filter(ADDRESSABLE, [NAMELESS][1..]) == [];
    assert Sum([NAMELESS][1..]) == 0.0;
  }
}

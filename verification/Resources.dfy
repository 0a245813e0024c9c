/** Residents of a machine and the one order in which they may be evicted. */
module Resources {

  datatype State = Loading | Ready | Crashed | Idle | Zombie | Other

  /** Sizes and ages are real numbers; strings are compared code point by code point. */
  datatype Entry = Entry(digest: string, alias: string, state: State, lastUsedAgo: real, reqCount: int, rssGb: real,
                         managed: bool, memGb: real, weights: int, pinned: bool, pinRemain: real, waitBound: bool)
  {
    predicate PinActive() {
      pinned && pinRemain > 0.0
    }

    function Occupied(): real {
      if memGb > 0.0 then memGb else rssGb
    }

    /** The two hard rules: an egg with requests, or pinned, is never evicted. */
    predicate Protected() {
      reqCount > 0 || PinActive()
    }

    function Target(): string {
      if alias != "" then alias else digest
    }

    predicate Addressable() {
      Target() != ""
    }

    /** ActionBlockReason allows it: no request, ours, not pinned, not loading, addressable. */
    predicate Actionable() {
      !(reqCount > 0) && managed && !PinActive() && state != Loading && Addressable()
    }

    function Tier(): int {
      if !managed || state == Crashed || state == Zombie then 1 else if waitBound then 5 else 3
    }

    function Key(): string {
      digest + "\0" + alias
    }
  }

  // ------------------------------------------------------------ the order

  predicate LexLess(a: string, b: string) {
    b != "" && (a == "" || a[0] < b[0] || (a[0] == b[0] && LexLess(a[1..], b[1..])))
  }

  lemma {:induction false} LexTotal(a: string, b: string)
    ensures LexLess(a, b) || LexLess(b, a) || a == b
    ensures !(LexLess(a, b) && LexLess(b, a)) && !LexLess(a, a)
    decreases |a| + |b|
  {
    if a != "" && b != "" {
      LexTotal(a[1..], b[1..]);
      assert a[0] == b[0] && a[1..] == b[1..] ==> a == b by {
        assert a == [a[0]] + a[1..] && b == [b[0]] + b[1..];
      }
    }
    if a != "" { LexIrreflexive(a); }
  }

  lemma {:induction false} LexIrreflexive(a: string)
    ensures !LexLess(a, a)
  {
    if a != "" { LexIrreflexive(a[1..]); }
  }

  lemma {:induction false} LexTransitive(a: string, b: string, c: string)
    requires LexLess(a, b) && LexLess(b, c)
    ensures LexLess(a, c)
    decreases |a|
  {
    if a != "" && a[0] == b[0] && b[0] == c[0] { LexTransitive(a[1..], b[1..], c[1..]); }
  }

  /** What the order of strings is: at the first difference the smaller code point comes first, and a
      beginning of a string before the whole. */
  lemma {:induction false} LexLessIff(a: string, b: string)
    ensures LexLess(a, b) <==>
      exists k :: 0 <= k <= |a| && k < |b| && a[..k] == b[..k] && (k == |a| || a[k] as int < b[k] as int)
  {
    if a != "" && b != "" && a[0] == b[0] {
      LexLessIff(a[1..], b[1..]);
      if LexLess(a, b) {
        var k :| 0 <= k <= |a[1..]| && k < |b[1..]| && a[1..][..k] == b[1..][..k]
                 && (k == |a[1..]| || a[1..][k] as int < b[1..][k] as int);
        OneFurther(a, b, k);
      }
      if k :| 0 <= k <= |a| && k < |b| && a[..k] == b[..k] && (k == |a| || a[k] as int < b[k] as int) {
        OneBack(a, b, k);
      }
    } else if b != "" {
      if a == "" { assert a[..0] == b[..0]; }
      else {
        assert a[..0] == b[..0];
        forall k | 0 < k <= |a| && k < |b| ensures a[..k] != b[..k] { assert a[..k][0] == a[0] && b[..k][0] == b[0]; }
      }
    }
  }

  lemma OneFurther(a: string, b: string, k: nat)
    requires a != "" && b != "" && a[0] == b[0] && k <= |a| - 1 && k < |b| - 1 && a[1..][..k] == b[1..][..k]
    ensures a[..k + 1] == b[..k + 1]
  {
    assert a[..k + 1] == [a[0]] + a[1..][..k] && b[..k + 1] == [b[0]] + b[1..][..k];
  }

  lemma OneBack(a: string, b: string, k: nat)
    requires a != "" && b != "" && a[0] == b[0] && k <= |a| && k < |b| && a[..k] == b[..k]
    requires k == |a| || a[k] as int < b[k] as int
    ensures k > 0 && a[1..][..k - 1] == b[1..][..k - 1] && (k - 1 == |a[1..]| || a[1..][k - 1] as int < b[1..][k - 1] as int)
  {
    assert a[..k][1..] == a[1..][..k - 1] && b[..k][1..] == b[1..][..k - 1];
  }

  /** Lower tier first; then more weights; then longer unused; then by name and digest. */
  predicate Less(a: Entry, b: Entry) {
    if a.Tier() != b.Tier() then a.Tier() < b.Tier()
    else if a.weights != b.weights then a.weights > b.weights
    else if a.lastUsedAgo != b.lastUsedAgo then a.lastUsedAgo > b.lastUsedAgo
    else if a.alias != b.alias then LexLess(a.alias, b.alias)
    else LexLess(a.digest, b.digest)
  }

  lemma LessTransitive(a: Entry, b: Entry, c: Entry)
    requires Less(a, b) && Less(b, c)
    ensures Less(a, c)
  {
    if LexLess(a.alias, b.alias) && LexLess(b.alias, c.alias) { LexTransitive(a.alias, b.alias, c.alias); }
    if LexLess(a.digest, b.digest) && LexLess(b.digest, c.digest) { LexTransitive(a.digest, b.digest, c.digest); }
    LexTotal(a.alias, c.alias);
    LexTotal(a.alias, b.alias);
    LexTotal(b.alias, c.alias);
  }

  /** Any two entries with different keys are ordered one way, and not both. */
  lemma LessTotal(a: Entry, b: Entry)
    ensures a.Key() != b.Key() ==> Less(a, b) || Less(b, a)
    ensures !(Less(a, b) && Less(b, a)) && !Less(a, a)
  {
    LexTotal(a.alias, b.alias);
    LexTotal(a.digest, b.digest);
  }

  // ------------------------------------------------------------ sorting

  ghost predicate UniqueKeys(es: seq<Entry>) {
    forall i, j :: 0 <= i < j < |es| ==> es[i].Key() != es[j].Key()
  }

  ghost predicate Sorted(es: seq<Entry>) {
    forall i, j :: 0 <= i < j < |es| ==> Less(es[i], es[j])
  }

  /** The place of one entry in a sorted list; equals keep their order. */
  function Insert(e: Entry, es: seq<Entry>): seq<Entry> {
    if es == [] || !Less(es[0], e) then [e] + es else [es[0]] + Insert(e, es[1..])
  }

  /** Stable sorting by Less. */
  function Sort(es: seq<Entry>): seq<Entry> {
    if es == [] then [] else Insert(es[0], Sort(es[1..]))
  }

  function Filter(p: Entry -> bool, es: seq<Entry>): seq<Entry> {
    if es == [] then [] else if p(es[0]) then [es[0]] + Filter(p, es[1..]) else Filter(p, es[1..])
  }

  lemma {:induction false} InsertSame(e: Entry, es: seq<Entry>)
    ensures multiset(Insert(e, es)) == multiset{e} + multiset(es)
  {
    if es != [] && Less(es[0], e) {
      InsertSame(e, es[1..]);
      assert es == [es[0]] + es[1..];
    }
  }

  lemma {:induction false} SortSame(es: seq<Entry>)
    ensures multiset(Sort(es)) == multiset(es)
  {
    if es != [] {
      SortSame(es[1..]);
      InsertSame(es[0], Sort(es[1..]));
      assert es == [es[0]] + es[1..];
    }
  }

  lemma SortedTail(es: seq<Entry>)
    requires Sorted(es) && es != []
    ensures Sorted(es[1..])
  {
  }

  lemma SortedCons(e: Entry, es: seq<Entry>)
    requires Sorted(es) && forall k :: 0 <= k < |es| ==> Less(e, es[k])
    ensures Sorted([e] + es)
  {
  }

  lemma {:induction false} InsertSorted(e: Entry, es: seq<Entry>)
    requires Sorted(es) && forall k :: 0 <= k < |es| ==> es[k].Key() != e.Key()
    ensures Sorted(Insert(e, es))
  {
    if es == [] {
    } else if !Less(es[0], e) {
      LessTotal(e, es[0]);
      forall k | 0 <= k < |es| ensures Less(e, es[k]) {
        if k > 0 { LessTransitive(e, es[0], es[k]); }
      }
      SortedCons(e, es);
    } else {
      SortedTail(es);
      InsertSorted(e, es[1..]);
      InsertSame(e, es[1..]);
      var rest := Insert(e, es[1..]);
      forall k | 0 <= k < |rest| ensures Less(es[0], rest[k]) {
        assert rest[k] in multiset(rest);
        if rest[k] != e {
          assert rest[k] in es[1..];
          var n :| 0 <= n < |es| - 1 && es[1..][n] == rest[k];
          assert es[n + 1] == rest[k];
        }
      }
      SortedCons(es[0], rest);
    }
  }

  lemma {:induction false} SortSorted(es: seq<Entry>)
    requires UniqueKeys(es)
    ensures Sorted(Sort(es))
  {
    if es != [] {
      SortSorted(es[1..]);
      SortSame(es[1..]);
      forall k | 0 <= k < |Sort(es[1..])| ensures Sort(es[1..])[k].Key() != es[0].Key() {
        assert Sort(es[1..])[k] in multiset(es[1..]);
        assert Sort(es[1..])[k] in es[1..];
      }
      InsertSorted(es[0], Sort(es[1..]));
    }
  }

  /** Two sorted lists of the same entries are the same list. */
  lemma {:induction false} SortedUnique(xs: seq<Entry>, ys: seq<Entry>)
    requires Sorted(xs) && Sorted(ys) && multiset(xs) == multiset(ys)
    ensures xs == ys
  {
    if xs == [] {
      assert |multiset(ys)| == 0;
    } else {
      assert xs[0] in multiset(ys) && |multiset(ys)| > 0;
      SameHead(xs, ys);
      SortedTail(xs);
      SortedTail(ys);
      assert xs == [xs[0]] + xs[1..] && ys == [ys[0]] + ys[1..];
      assert multiset(xs[1..]) == multiset(xs) - multiset{xs[0]};
      assert multiset(ys[1..]) == multiset(ys) - multiset{ys[0]};
      SortedUnique(xs[1..], ys[1..]);
    }
  }

  lemma SameHead(xs: seq<Entry>, ys: seq<Entry>)
    requires Sorted(xs) && Sorted(ys) && multiset(xs) == multiset(ys) && xs != [] && ys != []
    ensures xs[0] == ys[0]
  {
    assert xs[0] in multiset(ys) && ys[0] in multiset(xs);
    var i :| 0 <= i < |ys| && ys[i] == xs[0];
    var j :| 0 <= j < |xs| && xs[j] == ys[0];
    LessTotal(xs[0], ys[0]);
  }

  // ------------------------------------------------------------ filtering

  lemma {:induction false} FilterCount(p: Entry -> bool, es: seq<Entry>, e: Entry)
    ensures multiset(Filter(p, es))[e] == if p(e) then multiset(es)[e] else 0
  {
    if es != [] {
      FilterCount(p, es[1..], e);
      assert es == [es[0]] + es[1..];
      if p(es[0]) { assert multiset(Filter(p, es)) == multiset{es[0]} + multiset(Filter(p, es[1..])); }
    }
  }

  lemma FilterSame(p: Entry -> bool, xs: seq<Entry>, ys: seq<Entry>)
    requires multiset(xs) == multiset(ys)
    ensures multiset(Filter(p, xs)) == multiset(Filter(p, ys))
  {
    forall e ensures multiset(Filter(p, xs))[e] == multiset(Filter(p, ys))[e] {
      FilterCount(p, xs, e);
      FilterCount(p, ys, e);
    }
  }

  lemma {:induction false} FilterFrom(p: Entry -> bool, es: seq<Entry>, k: nat)
    requires k < |Filter(p, es)|
    ensures p(Filter(p, es)[k]) && Filter(p, es)[k] in es
  {
    if p(es[0]) {
      if k > 0 { FilterFrom(p, es[1..], k - 1); }
    } else {
      FilterFrom(p, es[1..], k);
    }
  }

  lemma {:induction false} FilterSorted(p: Entry -> bool, es: seq<Entry>)
    requires Sorted(es)
    ensures Sorted(Filter(p, es))
  {
    if es != [] {
      SortedTail(es);
      FilterSorted(p, es[1..]);
      if p(es[0]) {
        forall k | 0 <= k < |Filter(p, es[1..])| ensures Less(es[0], Filter(p, es[1..])[k]) {
          FilterFrom(p, es[1..], k);
          var n :| 0 <= n < |es| - 1 && es[1..][n] == Filter(p, es[1..])[k];
          assert es[n + 1] == Filter(p, es[1..])[k];
        }
        SortedCons(es[0], Filter(p, es[1..]));
      }
    }
  }

  lemma {:induction false} FilterUnique(p: Entry -> bool, es: seq<Entry>)
    requires UniqueKeys(es)
    ensures UniqueKeys(Filter(p, es))
  {
    if es != [] {
      FilterUnique(p, es[1..]);
      if p(es[0]) {
        var f := Filter(p, es[1..]);
        forall k | 0 <= k < |f| ensures f[k].Key() != es[0].Key() {
          FilterFrom(p, es[1..], k);
        }
      }
    }
  }

  lemma {:induction false} FilterAll(p: Entry -> bool, es: seq<Entry>)
    requires forall e :: e in es ==> p(e)
    ensures Filter(p, es) == es
  {
    if es != [] { FilterAll(p, es[1..]); }
  }

  // ------------------------------------------------------------ the ranking's laws

  const NOT_PROTECTED: Entry -> bool := (e: Entry) => !e.Protected()
  const ADDRESSABLE: Entry -> bool := (e: Entry) => e.Addressable()
  const ACTIONABLE: Entry -> bool := (e: Entry) => e.Actionable()

  /** RankEvictions: what may be evicted at all, in eviction order. */
  function Ranking(es: seq<Entry>): seq<Entry> {
    Sort(Filter(NOT_PROTECTED, es))
  }

  /** The ranking lists exactly the unprotected residents, each as often as it was reported. */
  lemma RankingMembers(es: seq<Entry>)
    ensures forall e :: multiset(Ranking(es))[e] == if e.Protected() then 0 else multiset(es)[e]
    ensures forall e :: e in Ranking(es) <==> e in es && !e.Protected()
    ensures forall e :: e in Ranking(es) <==> e in es && e.reqCount <= 0 && !(e.pinned && e.pinRemain > 0.0)
  {
    SortSame(Filter(NOT_PROTECTED, es));
    forall e ensures multiset(Ranking(es))[e] == if e.Protected() then 0 else multiset(es)[e] {
      FilterCount(NOT_PROTECTED, es, e);
    }
    forall e ensures e in Ranking(es) <==> e in es && !e.Protected() {
      assert e in Ranking(es) <==> e in multiset(Ranking(es));
      assert e in es <==> e in multiset(es);
    }
  }

  /** Under distinct keys the ranking lists the unprotected residents each once, strictly increasing. */
  lemma RankingExact(es: seq<Entry>)
    requires UniqueKeys(es)
    ensures Sorted(Ranking(es)) && UniqueKeys(Ranking(es))
    ensures forall e :: e in Ranking(es) <==> e in es && !e.Protected()
  {
    FilterUnique(NOT_PROTECTED, es);
    SortSorted(Filter(NOT_PROTECTED, es));
    RankingMembers(es);
    KeysFromOrder(es, Ranking(es));
  }

  predicate Expendable(e: Entry) {
    !e.managed || e.state == Crashed || e.state == Zombie
  }

  /** What the order means: processes not ours or dead go first and those others wait for go last;
      between equals the heavier goes first, and between equally heavy ones the longer unused. */
  lemma RankingOrder(es: seq<Entry>, i: nat, j: nat)
    requires i < j < |Ranking(es)|
    ensures var a, b := Ranking(es)[i], Ranking(es)[j];
      && (Expendable(b) ==> Expendable(a))
      && (a.waitBound && !Expendable(a) ==> b.waitBound && !Expendable(b))
      && (Expendable(a) == Expendable(b) && a.waitBound == b.waitBound ==>
            a.weights > b.weights || (a.weights == b.weights && a.lastUsedAgo >= b.lastUsedAgo))
      && (Expendable(a) == Expendable(b) && a.waitBound == b.waitBound && a.weights == b.weights
          && a.lastUsedAgo == b.lastUsedAgo ==>
            LexLess(a.alias, b.alias) || (a.alias == b.alias && (LexLess(a.digest, b.digest) || a.digest == b.digest)))
  {
    LexTotal(Ranking(es)[i].alias, Ranking(es)[j].alias);
    LexTotal(Ranking(es)[i].digest, Ranking(es)[j].digest);
    SortInOrder(Filter(NOT_PROTECTED, es));
    assert !Less(Ranking(es)[j], Ranking(es)[i]);
  }

  /** No later entry comes before an earlier one; residents alike may stand side by side. */
  ghost predicate InOrder(es: seq<Entry>) {
    forall i, j :: 0 <= i < j < |es| ==> !Less(es[j], es[i])
  }

  /** What is not before `b`, when `b` is not before `a`, is not before `a`. */
  lemma NotLessTransitive(a: Entry, b: Entry, c: Entry)
    requires !Less(b, a) && !Less(c, b)
    ensures !Less(c, a)
  {
    if Less(c, a) {
      LexTotal(a.alias, b.alias);
      LexTotal(a.digest, b.digest);
      if Less(a, b) { LessTransitive(c, a, b); }
    }
  }

  lemma {:induction false} InsertInOrder(e: Entry, es: seq<Entry>)
    requires InOrder(es)
    ensures InOrder(Insert(e, es))
  {
    if es == [] {
    } else if !Less(es[0], e) {
      forall k | 0 <= k < |es| ensures !Less(es[k], e) {
        if k > 0 { NotLessTransitive(e, es[0], es[k]); }
      }
    } else {
      InsertInOrder(e, es[1..]);
      InsertSame(e, es[1..]);
      LessTotal(es[0], e);
      var rest := Insert(e, es[1..]);
      forall k | 0 <= k < |rest| ensures !Less(rest[k], es[0]) {
        assert rest[k] in multiset(rest);
        if rest[k] != e {
          assert rest[k] in es[1..];
          var n :| 0 <= n < |es| - 1 && es[1..][n] == rest[k];
          assert es[n + 1] == rest[k];
        }
      }
    }
  }

  lemma {:induction false} SortInOrder(es: seq<Entry>)
    ensures InOrder(Sort(es))
  {
    if es != [] {
      SortInOrder(es[1..]);
      InsertInOrder(es[0], Sort(es[1..]));
    }
  }

  /** Neither comes before the other. */
  predicate Alike(a: Entry, b: Entry) {
    !Less(a, b) && !Less(b, a)
  }

  function LikeIt(e: Entry): Entry -> bool {
    (x: Entry) => Alike(x, e)
  }

  lemma LikeTransitive(a: Entry, b: Entry, c: Entry)
    requires Alike(a, c) && Alike(b, c)
    ensures !Less(a, b)
  {
    NotLessTransitive(b, c, a);
  }

  lemma {:induction false} InsertStable(e: Entry, es: seq<Entry>, c: Entry)
    ensures Filter(LikeIt(c), Insert(e, es)) == if Alike(e, c) then [e] + Filter(LikeIt(c), es) else Filter(LikeIt(c), es)
  {
    if es != [] && Less(es[0], e) {
      InsertStable(e, es[1..], c);
      if Alike(e, c) && Alike(es[0], c) { LikeTransitive(es[0], e, c); }
    }
  }

  /** THE SORT IS STABLE: residents that the order does not tell apart stay in the order of the report. */
  lemma {:induction false} SortStable(es: seq<Entry>, c: Entry)
    ensures Filter(LikeIt(c), Sort(es)) == Filter(LikeIt(c), es)
  {
    if es != [] {
      SortStable(es[1..], c);
      InsertStable(es[0], Sort(es[1..]), c);
    }
  }

  lemma KeysFromOrder(es: seq<Entry>, rs: seq<Entry>)
    requires UniqueKeys(es) && Sorted(rs) && forall e :: e in rs ==> e in es
    ensures UniqueKeys(rs)
  {
    forall i, j | 0 <= i < j < |rs| ensures rs[i].Key() != rs[j].Key() {
      assert rs[i] in es && rs[j] in es;
      LessTotal(rs[i], rs[j]);
    }
  }

  /** The order in which residents are reported does not matter. */
  lemma RankingOfAnyOrder(xs: seq<Entry>, ys: seq<Entry>)
    requires UniqueKeys(xs) && UniqueKeys(ys) && multiset(xs) == multiset(ys)
    ensures Ranking(xs) == Ranking(ys)
  {
    RankingExact(xs);
    RankingExact(ys);
    FilterSame(NOT_PROTECTED, xs, ys);
    SortSame(Filter(NOT_PROTECTED, xs));
    SortSame(Filter(NOT_PROTECTED, ys));
    SortedUnique(Ranking(xs), Ranking(ys));
  }

  /** Ranking and picking out commute. */
  lemma RankingCommutes(p: Entry -> bool, es: seq<Entry>)
    requires UniqueKeys(es)
    ensures Ranking(Filter(p, es)) == Filter(p, Ranking(es))
  {
    FilterUnique(p, es);
    RankingExact(Filter(p, es));
    RankingExact(es);
    FilterSorted(p, Ranking(es));
    forall e ensures multiset(Ranking(Filter(p, es)))[e] == multiset(Filter(p, Ranking(es)))[e] {
      SortSame(Filter(NOT_PROTECTED, Filter(p, es)));
      SortSame(Filter(NOT_PROTECTED, es));
      FilterCount(NOT_PROTECTED, Filter(p, es), e);
      FilterCount(p, es, e);
      FilterCount(p, Ranking(es), e);
      FilterCount(NOT_PROTECTED, es, e);
    }
    SortedUnique(Ranking(Filter(p, es)), Filter(p, Ranking(es)));
  }
}

/**
Several calls expanding into one directory at once.  Each call goes through the phases of one
expansion, one step at a time; between any two steps of one call any steps of the others may come, and
a call that makes no further step has crashed.
*/
module ExpansionRace {
  import opened Expansion
  import opened ExpansionLanding
  import opened ExpansionDisk

  datatype Phase =
    | Start
    | Looked(created: bool)              // found the directory free; the lock is still to be taken
    | Writing(created: bool, done: nat)  // holds the lock, `done` rows have landed
    | Certified                          // the receipt is written, the lock still there
    | Failing(created: bool)             // to be rolled back
    | Cleared(created: bool)             // content removed, the lock still there
    | Unlocked(created: bool)            // lock removed; a receipt is still to be removed
    | Unmarked(created: bool)            // the root is still to be removed, or the note written
    | Over

  datatype World = World(snap: Snap, phases: seq<Phase>)

  function InOrder(table: seq<Segment>): seq<Segment> {
    Files(table) + Links(table)
  }

  // ------------------------------------------------------------ the steps of one call

  /** What the look asks for: nothing but marker files, and no receipt among them. */
  ghost predicate Free(nodes: Tree) {
    COMPLETE !in nodes && forall q :: q in nodes ==> |q| > 0 && q[0] in MARKERS
  }

  /** eggPrepareDir and eggCheckComplete. */
  ghost predicate Looks(s: Snap, t: Snap, q: Phase) {
    && CallRefused(s, t) && SnapOk(t)
    && (q.Over? || (q.Looked? && t.root.Directory? && (q.created <==> s.root.Missing?) && (Plain(s.nodes) ==> Free(t.nodes))))
  }

  /** The exclusive creation of the lock. */
  ghost predicate Locks(created: bool, s: Snap, t: Snap, q: Phase) {
    if q.Over? then t == s || RootGone(created, s, t)
    else
      && q == Writing(created, 0) && s.root.Directory? && t.root.Directory? && EXPANDING !in s.nodes && TreeOk(t.nodes)
      && (t.nodes == s.nodes[EXPANDING := File(Progress)] || t.nodes == s.nodes[EXPANDING := File(Partial)])
  }

  const COMPLETE_TMP: Path := [".complete.tmp"]

  /** The next row, or the receipt after the last one; either may fail. */
  ghost predicate Writes(ix: Index, p: Phase, s: Snap, t: Snap, q: Phase)
    requires p.Writing?
  {
    var rows := InOrder(ix.table);
    && t.root == s.root && TreeOk(t.nodes)
    && match q
       case Writing(created, done) =>
         created == p.created && p.done < |rows| && done == p.done + 1 && MayLand(s.nodes, t.nodes, rows[p.done], true)
       case Certified =>
         p.done == |rows| && t.nodes == (s.nodes - {COMPLETE_TMP})[COMPLETE := File(Completed(ReceiptOf(ix)))]
       case Failing(created) =>
         created == p.created &&
         if p.done < |rows| then MayLand(s.nodes, t.nodes, rows[p.done], false)
         else t.nodes - {COMPLETE_TMP} == s.nodes - {COMPLETE_TMP}
       case _ => false
  }

  /** Removing markers; what cannot be removed stays. */
  ghost predicate Drops(s: Snap, t: Snap, gone: set<Path>) {
    t.root == s.root && TreeOk(t.nodes) && exists some :: some <= gone && t.nodes == s.nodes - some
  }

  ghost predicate Leaves(created: bool, s: Snap, t: Snap) {
    RootGone(created, s, t) || (t.root == s.root && (t.nodes == s.nodes || s.root.Directory?) && FailureNoted(s.nodes, t.nodes))
  }

  ghost predicate Act(ix: Index, p: Phase, s: Snap, t: Snap, q: Phase) {
    match p
    case Start => Looks(s, t, q)
    case Looked(created) => Locks(created, s, t, q)
    case Writing(_, _) => Writes(ix, p, s, t, q)
    case Certified => q == Over && Drops(s, t, {EXPANDING})
    case Failing(created) => q == Cleared(created) && t.root == s.root && Clearing(s.nodes, t.nodes)
    case Cleared(created) => q == Unlocked(created) && Drops(s, t, {EXPANDING_TMP, EXPANDING})
    case Unlocked(created) => q == Unmarked(created) && Drops(s, t, {COMPLETE})
    case Unmarked(created) => q == Over && Leaves(created, s, t)
    case Over => false
  }

  ghost predicate Step(ixs: seq<Index>, w: World, c: nat, v: World) {
    && |ixs| == |w.phases| == |v.phases| && c < |ixs|
    && Act(ixs[c], w.phases[c], w.snap, v.snap, v.phases[c])
    && v.phases == w.phases[c := v.phases[c]]
  }

  // ------------------------------------------------------------ the file operations are these steps

  /** One step of a call, whichever phase it is in, done on the disk. */
  method CallStep(disk: Disk, ix: Index, p: Phase) returns (q: Phase)
    requires SnapOk(disk.Snapshot()) && GoodTable(ix.table) && !p.Over?
    requires Holds(p) ==> disk.root.Directory?
    requires p.Writing? ==> p.done <= |InOrder(ix.table)|
    modifies disk
    ensures SnapOk(disk.Snapshot()) && Act(ix, p, old(disk.Snapshot()), disk.Snapshot(), q)
  {
    match p {
      case Start => q := LookStep(disk, ix);
      case Looked(created) =>
        var s := disk.Lock(created);
        q := if s.Good? then Writing(created, 0) else Over;
      case Writing(created, done) => q := WriteStep(disk, ix, created, done);
      case Certified => Drop(disk, EXPANDING, {EXPANDING}); q := Over;
      case Failing(created) => var _, _ := disk.RemoveContent(); q := Cleared(created);
      case Cleared(created) =>
        DropLock(disk);
        q := Unlocked(created);
      case Unlocked(created) => Drop(disk, COMPLETE, {COMPLETE}); q := Unmarked(created);
      case Unmarked(created) => var _ := disk.Leave(created, true); q := Over;
    }
  }

  method LookStep(disk: Disk, ix: Index) returns (q: Phase)
    requires SnapOk(disk.Snapshot())
    modifies disk
    ensures SnapOk(disk.Snapshot()) && Looks(old(disk.Snapshot()), disk.Snapshot(), q)
  {
    var s, created := disk.PrepareDir();
    if !s.Good? { return Over; }
    var found;
    s, found := disk.CheckComplete(ix);
    q := if s.Good? && !found then Looked(created) else Over;
  }

  method WriteStep(disk: Disk, ix: Index, created: bool, done: nat) returns (q: Phase)
    requires SnapOk(disk.Snapshot()) && GoodTable(ix.table) && disk.root.Directory? && done <= |InOrder(ix.table)|
    modifies disk
    ensures SnapOk(disk.Snapshot()) && Writes(ix, Writing(created, done), old(disk.Snapshot()), disk.Snapshot(), q)
  {
    var files, links := disk.Split(ix.table);
    var rows := files + links;
    var s;
    if done < |rows| {
      RowsToCome(ix.table, done);
      ghost var tame;
      s, tame := disk.LandNext(rows[done], rows[..done]);
      return if s.Good? then Writing(created, done + 1) else Failing(created);
    }
    s := disk.Fault();                // the hash of the whole egg
    if s.Good? { s := disk.WriteAtomic(COMPLETE, COMPLETE_TMP, Completed(ReceiptOf(ix))); }
    q := if s.Good? then Certified else Failing(created);
  }

  lemma RowsToCome(table: seq<Segment>, k: nat)
    requires GoodTable(table) && k < |InOrder(table)|
    ensures ExpansionDisk.Rows(InOrder(table)[..k] + [InOrder(table)[k]])
  {
    TableSplit(table);
    assert InOrder(table)[..k] + [InOrder(table)[k]] == InOrder(table)[..k + 1];
    assert forall e :: e in InOrder(table)[..k + 1] ==> e in InOrder(table);
  }

  method Drop(disk: Disk, p: Path, ghost gone: set<Path>)
    requires SnapOk(disk.Snapshot()) && |p| == 1 && p in gone
    modifies disk
    ensures SnapOk(disk.Snapshot()) && Drops(old(disk.Snapshot()), disk.Snapshot(), gone)
  {
    ghost var s := disk.Snapshot();
    var status := disk.RemoveMarker(p);
    Dropped(s, s.nodes, disk.Snapshot(), {}, if status.Good? then {p} else {}, gone);
  }

  lemma Dropped(s: Snap, mid: Tree, t: Snap, before: set<Path>, now: set<Path>, gone: set<Path>)
    requires t.root == s.root && TreeOk(t.nodes) && mid == s.nodes - before && t.nodes == mid - now && before + now <= gone
    ensures Drops(s, t, gone)
  {
    assert s.nodes - before - now == s.nodes - (before + now);
  }

  /** The lock and its temporary, each removed or left. */
  method DropLock(disk: Disk)
    requires SnapOk(disk.Snapshot())
    modifies disk
    ensures SnapOk(disk.Snapshot()) && Drops(old(disk.Snapshot()), disk.Snapshot(), {EXPANDING_TMP, EXPANDING})
  {
    ghost var s := disk.Snapshot();
    var first := disk.RemoveMarker(EXPANDING_TMP);
    ghost var before := if first.Good? then {EXPANDING_TMP} else {};
    assert disk.nodes == s.nodes - before;
    ghost var mid := disk.nodes;
    var second := disk.RemoveMarker(EXPANDING);
    Dropped(s, mid, disk.Snapshot(), before, if second.Good? then {EXPANDING} else {}, {EXPANDING_TMP, EXPANDING});
  }

  // ------------------------------------------------------------ one writer at a time

  /** From the lock until its removal. */
  predicate Holds(p: Phase) {
    p.Writing? || p.Certified? || p.Failing? || p.Cleared?
  }

  ghost predicate CallOk(ix: Index, p: Phase, s: Snap) {
    && (Holds(p) ==> s.root.Directory? && EXPANDING in s.nodes)
    && (p.Writing? ==> p.done <= |InOrder(ix.table)| && Stage(s.nodes, InOrder(ix.table)[..p.done]))
    && (p.Failing? || p.Cleared? ==> COMPLETE !in s.nodes)
  }

  ghost predicate OneWriter(w: World) {
    forall c, d :: 0 <= c < d < |w.phases| ==> !(Holds(w.phases[c]) && Holds(w.phases[d]))
  }

  ghost predicate Inv(ixs: seq<Index>, w: World) {
    && |ixs| == |w.phases| && SnapOk(w.snap) && Honest(w.snap) && OneWriter(w)
    && forall c :: 0 <= c < |ixs| ==> CallOk(ixs[c], w.phases[c], w.snap)
  }

  /** A lock is taken late when by then a receipt, or a link that could lead a segment away, is there. */
  ghost predicate LateLock(p: Phase, s: Snap, q: Phase) {
    p.Looked? && q.Writing? && !Stage(s.nodes, [])
  }

  /** What a call does that does not hold the lock: nothing but a failure note comes, nothing but that
      and a receipt goes. */
  ghost predicate Aside(s: Snap, t: Snap) {
    && SnapOk(t) && (EXPANDING in s.nodes ==> t.root == s.root)
    && (forall q :: q in t.nodes && q != FAILED && q != FAILED_TMP ==> q in s.nodes && t.nodes[q] == s.nodes[q])
    && (forall q :: q in s.nodes && q != FAILED && q != FAILED_TMP && q != COMPLETE ==> q in t.nodes)
  }

  lemma MarkerNames()
    ensures COMPLETE[0] in RESERVED && COMPLETE_TMP[0] in RESERVED && FAILED[0] in RESERVED && FAILED_TMP[0] in RESERVED
    ensures EXPANDING[0] in RESERVED && EXPANDING_TMP[0] in RESERVED
    ensures EXPANDING != COMPLETE && EXPANDING != COMPLETE_TMP && EXPANDING != FAILED && EXPANDING != FAILED_TMP
    ensures EXPANDING != EXPANDING_TMP && COMPLETE != EXPANDING_TMP
    ensures COMPLETE != COMPLETE_TMP && COMPLETE != FAILED && COMPLETE != FAILED_TMP
  {
    var a, b, c, d := ".complete", ".complete.tmp", ".failed", ".failed.tmp";
    var e, f := ".expanding", ".expanding.tmp";
    assert |a| == 9 && |b| == 13 && |c| == 7 && |d| == 11 && |e| == 10 && |f| == 14;
    assert COMPLETE[0] == a && COMPLETE_TMP[0] == b && FAILED[0] == c && FAILED_TMP[0] == d;
    assert EXPANDING[0] == e && EXPANDING_TMP[0] == f;
  }

  lemma AsideHonest(s: Snap, t: Snap)
    requires Honest(s) && Aside(s, t)
    ensures Honest(t)
  {
    MarkerNames();
    if HasReceipt(t.nodes) {
      var table := s.nodes[COMPLETE].content.receipt.table;
      forall e | e in table ensures Present(t.nodes, e) {
        assert Present(s.nodes, e) && e.path[0] !in RESERVED;
      }
    }
  }

  lemma AsideKeeps(ix: Index, p: Phase, s: Snap, t: Snap)
    requires GoodTable(ix.table) && CallOk(ix, p, s) && Aside(s, t)
    ensures CallOk(ix, p, t)
  {
    MarkerNames();
    if p.Writing? {
      TableSplit(ix.table);
      assert forall e :: e in InOrder(ix.table)[..p.done] ==> e in InOrder(ix.table);
      AsideStage(InOrder(ix.table)[..p.done], s, t);
    }
  }

  lemma AsideStage(landed: seq<Segment>, s: Snap, t: Snap)
    requires Stage(s.nodes, landed) && Aside(s, t) && forall e :: e in landed ==> |e.path| > 0 && e.path[0] !in RESERVED
    ensures Stage(t.nodes, landed)
  {
    MarkerNames();
    forall e | e in landed ensures Present(t.nodes, e) { assert Present(s.nodes, e); }
    forall q | q in t.nodes && t.nodes[q].Link? ensures |q| > 0 && (q[0] in RESERVED || Linked(landed, q)) {
      if q != FAILED && q != FAILED_TMP { assert s.nodes[q].Link?; }
    }
  }

  // What each step leaves, for the call that takes it.

  lemma LookOk(s: Snap, t: Snap, q: Phase)
    requires SnapOk(s) && Honest(s) && Looks(s, t, q)
    ensures Aside(s, t)
  {
    MarkerNames();
  }

  lemma LockOk(ix: Index, created: bool, s: Snap, t: Snap, q: Phase)
    requires SnapOk(s) && Honest(s) && Locks(created, s, t, q) && !LateLock(Looked(created), s, q)
    ensures SnapOk(t) && Honest(t) && CallOk(ix, q, t)
    ensures !Holds(q) ==> Aside(s, t)
    ensures Holds(q) ==> EXPANDING !in s.nodes
  {
    MarkerNames();
    if q.Writing? {
      assert InOrder(ix.table)[..0] == [];
      forall p | p in t.nodes && t.nodes[p].Link? ensures |p| > 0 && p[0] in RESERVED {
        assert p in s.nodes;
      }
    }
  }

  /** Files come before links, so without a link below a link no row comes after a link above it. */
  lemma NoLinkAbove(table: seq<Segment>, k: nat, l: Segment)
    requires GoodTable(table) && NoLinkBelowLink(table) && k < |InOrder(table)|
    requires l in InOrder(table)[..k] && l.IsLink()
    ensures !ProperPrefix(l.path, InOrder(table)[k].path)
  {
    TableSplit(table);
    var e := InOrder(table)[k];
    assert l in InOrder(table) && e in InOrder(table);
    LinksLast(table, k);
  }

  lemma LinksLast(table: seq<Segment>, k: nat)
    requires GoodTable(table) && k < |InOrder(table)|
    ensures (exists l :: l in InOrder(table)[..k] && l.IsLink()) ==> InOrder(table)[k].IsLink()
  {
    TableSplit(table);
    if k < |Files(table)| {
      assert InOrder(table)[..k] == Files(table)[..k];
    } else {
      assert InOrder(table)[k] == Links(table)[k - |Files(table)|];
    }
  }

  lemma WayIsClear(ix: Index, nodes: Tree, k: nat)
    requires GoodTable(ix.table) && NoLinkBelowLink(ix.table) && k < |InOrder(ix.table)|
    requires Stage(nodes, InOrder(ix.table)[..k])
    ensures var e := InOrder(ix.table)[k]; |e.path| > 0 && e.path[0] !in RESERVED && !ThroughLink(nodes, ParentOf(e.path))
  {
    var e := InOrder(ix.table)[k];
    RowsToCome(ix.table, k);
    assert e in InOrder(ix.table)[..k] + [e];
    if ThroughLink(nodes, ParentOf(e.path)) {
      LinkAbove(nodes, InOrder(ix.table)[..k], e);
      var l :| l in InOrder(ix.table)[..k] && l.IsLink() && ProperPrefix(l.path, e.path);
      NoLinkAbove(ix.table, k, l);
    }
  }

  lemma RowOk(ix: Index, a: Tree, b: Tree, k: nat, good: bool)
    requires GoodTable(ix.table) && NoLinkBelowLink(ix.table) && k < |InOrder(ix.table)|
    requires Stage(a, InOrder(ix.table)[..k]) && EXPANDING in a && MayLand(a, b, InOrder(ix.table)[k], good)
    ensures COMPLETE !in b && EXPANDING in b && (good ==> Stage(b, InOrder(ix.table)[..k + 1]))
  {
    var rows, e := InOrder(ix.table), InOrder(ix.table)[k];
    WayIsClear(ix, a, k);
    RowsToCome(ix.table, k);
    LandedAndNoted(a, b, rows[..k], e, good);
    assert rows[..k + 1] == rows[..k] + [e];
  }

  lemma LandedAndNoted(a: Tree, b: Tree, landed: seq<Segment>, e: Segment, good: bool)
    requires ExpansionDisk.Rows(landed + [e]) && |e.path| > 0 && e.path[0] !in RESERVED && Stage(a, landed) && EXPANDING in a
    requires LandsOn(a, b, e, good)
    ensures COMPLETE !in b && EXPANDING in b && (good ==> Stage(b, landed + [e]))
  {
    MarkerNames();
    var mid :| Landing(a, mid, e.path) && (good ==> Present(mid, e)) && Noting(mid, b);
    RowStep(a, mid, landed, e, if good then Good else Bad, true);
    if good { StageProgress(mid, b, landed + [e]); }
  }

  lemma ReceiptOk(ix: Index, s: Snap, t: Snap)
    requires GoodTable(ix.table) && SnapOk(s) && s.root.Directory? && t.root == s.root && TreeOk(t.nodes)
    requires Stage(s.nodes, InOrder(ix.table)) && EXPANDING in s.nodes
    requires t.nodes == (s.nodes - {COMPLETE_TMP})[COMPLETE := File(Completed(ReceiptOf(ix)))]
    ensures SnapOk(t) && Honest(t) && EXPANDING in t.nodes
  {
    MarkerNames();
    AllLanded(ix.table, s.nodes);
    forall e | e in ix.table ensures Present(t.nodes, e) {
      assert Present(s.nodes, e) && e.path[0] !in RESERVED;
    }
  }

  lemma WriteOk(ix: Index, p: Phase, s: Snap, t: Snap, q: Phase)
    requires p.Writing? && GoodTable(ix.table) && NoLinkBelowLink(ix.table)
    requires SnapOk(s) && CallOk(ix, p, s) && Writes(ix, p, s, t, q)
    ensures SnapOk(t) && Honest(t) && CallOk(ix, q, t)
  {
    MarkerNames();
    var rows := InOrder(ix.table);
    if p.done < |rows| {
      RowOk(ix, s.nodes, t.nodes, p.done, q.Writing?);
    } else if q.Certified? {
      assert rows[..p.done] == rows;
      ReceiptOk(ix, s, t);
    } else {
      assert EXPANDING in t.nodes - {COMPLETE_TMP} && COMPLETE !in t.nodes - {COMPLETE_TMP};
    }
  }

  lemma DropOk(s: Snap, t: Snap, gone: set<Path>)
    requires SnapOk(s) && Honest(s) && Drops(s, t, gone) && gone <= {EXPANDING, EXPANDING_TMP, COMPLETE}
    ensures SnapOk(t) && Honest(t)
    ensures EXPANDING !in gone && EXPANDING_TMP !in gone ==> Aside(s, t)
    ensures COMPLETE !in s.nodes ==> COMPLETE !in t.nodes
  {
    MarkerNames();
    if HasReceipt(t.nodes) {
      var table := s.nodes[COMPLETE].content.receipt.table;
      forall e | e in table ensures Present(t.nodes, e) {
        assert Present(s.nodes, e) && e.path[0] !in RESERVED;
      }
    }
  }

  lemma LeaveOk(created: bool, s: Snap, t: Snap)
    requires SnapOk(s) && Honest(s) && Leaves(created, s, t)
    ensures Aside(s, t)
  {
    MarkerNames();
    if FailureNoted(s.nodes, t.nodes) {
      var a, b := s.nodes - {FAILED, FAILED_TMP}, t.nodes - {FAILED, FAILED_TMP};
      assert forall q :: q in t.nodes && q != FAILED && q != FAILED_TMP ==> q in b && b[q] == t.nodes[q] && q in a;
      assert forall q :: q in s.nodes && q != FAILED && q != FAILED_TMP ==> q in a && a[q] == s.nodes[q] && q in b;
    }
  }

  lemma ActOk(ix: Index, p: Phase, s: Snap, t: Snap, q: Phase)
    requires GoodTable(ix.table) && NoLinkBelowLink(ix.table)
    requires SnapOk(s) && Honest(s) && CallOk(ix, p, s) && Act(ix, p, s, t, q) && !LateLock(p, s, q)
    ensures SnapOk(t) && Honest(t) && CallOk(ix, q, t)
    ensures !Holds(p) && !Holds(q) ==> Aside(s, t)
    ensures !Holds(p) && Holds(q) ==> EXPANDING !in s.nodes
  {
    match p {
      case Start => LookOk(s, t, q); AsideHonest(s, t);
      case Looked(created) => LockOk(ix, created, s, t, q);
      case Writing(_, _) => WriteOk(ix, p, s, t, q);
      case Certified => DropOk(s, t, {EXPANDING});
      case Failing(_) => MarkerNames();
      case Cleared(_) => DropOk(s, t, {EXPANDING_TMP, EXPANDING});
      case Unlocked(_) => DropOk(s, t, {COMPLETE}); MarkerNames();
      case Unmarked(created) => LeaveOk(created, s, t); AsideHonest(s, t);
    }
  }

  ghost predicate GoodEggs(ixs: seq<Index>) {
    forall ix :: ix in ixs ==> GoodTable(ix.table) && NoLinkBelowLink(ix.table)
  }

  /** Any step of any call keeps every receipt honest and the writers apart, except a late lock. */
  lemma StepKeepsHonest(ixs: seq<Index>, w: World, c: nat, v: World)
    requires GoodEggs(ixs) && Inv(ixs, w) && Step(ixs, w, c, v) && !LateLock(w.phases[c], w.snap, v.phases[c])
    ensures Inv(ixs, v)
  {
    var p, q := w.phases[c], v.phases[c];
    assert ixs[c] in ixs && CallOk(ixs[c], p, w.snap);
    ActOk(ixs[c], p, w.snap, v.snap, q);
    forall d | 0 <= d < |ixs| ensures CallOk(ixs[d], v.phases[d], v.snap) && (d != c && Holds(q) ==> !Holds(v.phases[d])) {
      if d != c {
        assert ixs[d] in ixs && CallOk(ixs[d], w.phases[d], w.snap);
        if !Holds(p) && !Holds(q) { AsideKeeps(ixs[d], w.phases[d], w.snap, v.snap); }
      }
    }
  }

  ghost predicate Run(ixs: seq<Index>, ws: seq<World>, cs: seq<nat>) {
    |ws| == |cs| + 1 && forall k :: 0 <= k < |cs| ==> Step(ixs, ws[k], cs[k], ws[k + 1])
  }

  ghost predicate Begin(ixs: seq<Index>, w: World) {
    |w.phases| == |ixs| && SnapOk(w.snap) && Honest(w.snap) && forall p :: p in w.phases ==> p.Start?
  }

  ghost predicate NoLateLock(ws: seq<World>, cs: seq<nat>) {
    forall k :: 0 <= k < |cs| && k + 1 < |ws| ==> !LateStep(ws[k], cs[k], ws[k + 1])
  }

  ghost predicate LateStep(w: World, c: nat, v: World) {
    c < |w.phases| && c < |v.phases| && LateLock(w.phases[c], w.snap, v.phases[c])
  }

  lemma {:induction false} RunKeepsHonest(ixs: seq<Index>, ws: seq<World>, cs: seq<nat>, k: nat)
    requires GoodEggs(ixs) && Run(ixs, ws, cs) && Inv(ixs, ws[0]) && NoLateLock(ws, cs) && k < |ws|
    ensures Inv(ixs, ws[k])
  {
    if k > 0 {
      RunKeepsHonest(ixs, ws, cs, k - 1);
      assert Step(ixs, ws[k - 1], cs[k - 1], ws[k - 1 + 1]) && !LateStep(ws[k - 1], cs[k - 1], ws[k - 1 + 1]);
      StepKeepsHonest(ixs, ws[k - 1], cs[k - 1], ws[k]);
    }
  }

  /** ONE WRITER, HONEST RECEIPTS: any number of calls, their steps interleaved in any way, each failing
      or crashing anywhere: as long as no lock is taken late, no two calls write at once and a receipt
      found at any time is honest. */
  lemma RaceHonest(ixs: seq<Index>, ws: seq<World>, cs: seq<nat>, k: nat)
    requires GoodEggs(ixs) && Run(ixs, ws, cs) && Begin(ixs, ws[0]) && NoLateLock(ws, cs) && k < |ws|
    ensures Honest(ws[k].snap) && OneWriter(ws[k])
  {
    assert forall c :: 0 <= c < |ixs| ==> ws[0].phases[c] in ws[0].phases;
    RunKeepsHonest(ixs, ws, cs, k);
  }

  /** Some run without a late lock leads from one world to the other. */
  ghost predicate Reaches(ixs: seq<Index>, w: World, v: World) {
    exists ws, cs :: Run(ixs, ws, cs) && NoLateLock(ws, cs) && ws[0] == w && ws[|cs|] == v
  }

  lemma Here(ixs: seq<Index>, w: World)
    ensures Reaches(ixs, w, w)
  {
    var ws, cs: seq<nat> := [w], [];
    assert Run(ixs, ws, cs) && NoLateLock(ws, cs);
  }

  lemma Onward(ixs: seq<Index>, w: World, u: World, c: nat, v: World)
    requires Reaches(ixs, w, u) && Step(ixs, u, c, v) && !LateStep(u, c, v)
    ensures Reaches(ixs, w, v)
  {
    var ws, cs :| Run(ixs, ws, cs) && NoLateLock(ws, cs) && ws[0] == w && ws[|cs|] == u;
    var all, who := ws + [v], cs + [c];
    forall k | 0 <= k < |who| ensures Step(ixs, all[k], who[k], all[k + 1]) && !LateStep(all[k], who[k], all[k + 1]) {
      if k < |cs| { assert Step(ixs, ws[k], cs[k], ws[k + 1]) && !LateStep(ws[k], cs[k], ws[k + 1]); }
    }
    assert Run(ixs, all, who) && NoLateLock(all, who);
  }

  // ------------------------------------------------------------ who can take a receipt away

  ghost predicate KeepsReceipt(a: Tree, b: Tree) {
    COMPLETE in a && COMPLETE in b && b[COMPLETE] == a[COMPLETE]
  }

  /** A STALE ROLLBACK: while no lock is taken late, a call can take an honest receipt away with its next
      step if and only if it is a rollback that has given up its lock and not yet looked for a receipt. */
  lemma ReceiptLostIff(ixs: seq<Index>, w: World, c: nat)
    requires GoodEggs(ixs) && Inv(ixs, w) && c < |ixs| && HasReceipt(w.snap.nodes)
    ensures (exists v :: Step(ixs, w, c, v) && !LateLock(w.phases[c], w.snap, v.phases[c])
              && !KeepsReceipt(w.snap.nodes, v.snap.nodes))
            <==> w.phases[c].Unlocked?
  {
    assert CallOk(ixs[c], w.phases[c], w.snap);
    if w.phases[c].Unlocked? {
      var v := Stripped(w, c);
      CanStrip(ixs, w, c);
      assert !KeepsReceipt(w.snap.nodes, v.snap.nodes);
    } else {
      forall v | Step(ixs, w, c, v) && !LateLock(w.phases[c], w.snap, v.phases[c])
        ensures KeepsReceipt(w.snap.nodes, v.snap.nodes)
      {
        ReceiptKept(ixs[c], w.phases[c], w.snap, v.snap, v.phases[c]);
      }
    }
  }

  ghost function Stripped(w: World, c: nat): World
    requires c < |w.phases| && w.phases[c].Unlocked?
  {
    World(Snap(w.snap.root, w.snap.nodes - {COMPLETE}), w.phases[c := Unmarked(w.phases[c].created)])
  }

  lemma CanStrip(ixs: seq<Index>, w: World, c: nat)
    requires Inv(ixs, w) && c < |ixs| && w.phases[c].Unlocked? && HasReceipt(w.snap.nodes)
    ensures Step(ixs, w, c, Stripped(w, c))
  {
    NothingBelowFile(w.snap.nodes, COMPLETE);
    RemovedMarker(w.snap.nodes, COMPLETE);
    assert {COMPLETE} <= {COMPLETE};
  }

  lemma ReceiptKept(ix: Index, p: Phase, s: Snap, t: Snap, q: Phase)
    requires SnapOk(s) && Honest(s) && HasReceipt(s.nodes) && CallOk(ix, p, s)
    requires Act(ix, p, s, t, q) && !LateLock(p, s, q) && !p.Unlocked?
    ensures KeepsReceipt(s.nodes, t.nodes)
  {
    MarkerNames();
    match p {
      case Start => HonestIsOccupied(s);
      case Unmarked(_) =>
        if FailureNoted(s.nodes, t.nodes) {
          assert COMPLETE in s.nodes - {FAILED, FAILED_TMP};
          assert COMPLETE in t.nodes - {FAILED, FAILED_TMP};
        }
      case _ =>
    }
  }

  // ------------------------------------------------------------ what a late lock can do

  ghost function At(w: World, c: nat, nodes: Tree, q: Phase): World
    requires c < |w.phases|
  {
    World(Snap(w.snap.root, nodes), w.phases[c := q])
  }

  function OnlyMarkers(nodes: Tree): Tree {
    map q | q in nodes && |q| > 0 && q[0] in MARKERS :: nodes[q]
  }

  lemma CanLock(ixs: seq<Index>, w: World, c: nat, created: bool)
    requires |ixs| == |w.phases| && c < |ixs| && w.phases[c] == Looked(created)
    requires TreeOk(w.snap.nodes) && w.snap.root.Directory? && EXPANDING !in w.snap.nodes
    ensures var locked := w.snap.nodes[EXPANDING := File(Progress)];
      TreeOk(locked) && Step(ixs, w, c, At(w, c, locked, Writing(created, 0)))
  {
    PutFile(w.snap.nodes, EXPANDING, Progress);
  }

  lemma CanFail(ixs: seq<Index>, w: World, c: nat, created: bool)
    requires |ixs| == |w.phases| && c < |ixs| && GoodTable(ixs[c].table)
    requires w.phases[c] == Writing(created, 0) && TreeOk(w.snap.nodes)
    ensures Step(ixs, w, c, At(w, c, w.snap.nodes, Failing(created)))
  {
    var nodes, rows := w.snap.nodes, InOrder(ixs[c].table);
    TableSplit(ixs[c].table);
    if rows != [] {
      assert rows[0] in rows;
      assert Landing(nodes, nodes, rows[0].path) && Noting(nodes, nodes);
    }
  }

  lemma CanClear(ixs: seq<Index>, w: World, c: nat, created: bool)
    requires |ixs| == |w.phases| && c < |ixs| && w.phases[c] == Failing(created) && TreeOk(w.snap.nodes)
    ensures Step(ixs, w, c, At(w, c, OnlyMarkers(w.snap.nodes), Cleared(created)))
  {
    MarkersAlone(w.snap.nodes, OnlyMarkers(w.snap.nodes));
  }

  /** Locked over a receipt, a call that fails takes the content from under it. */
  lemma LateLockBreaks(ixs: seq<Index>, w: World, c: nat) returns (u: World, v: World)
    requires |ixs| == |w.phases| && c < |ixs| && GoodTable(ixs[c].table) && w.phases[c].Looked?
    requires SnapOk(w.snap) && Honest(w.snap)
    requires w.snap.root.Directory? && EXPANDING !in w.snap.nodes && HasReceipt(w.snap.nodes)
    ensures LeadsAstray(ixs, w, c, u, v)
  {
    MarkerNames();
    var created, locked := w.phases[c].created, w.snap.nodes[EXPANDING := File(Progress)];
    CanLock(ixs, w, c, created);
    u := At(w, c, locked, Writing(created, 0));
    Here(ixs, u);
    CanFail(ixs, u, c, created);
    var w2 := At(u, c, locked, Failing(created));
    Onward(ixs, u, u, c, w2);
    CanClear(ixs, w2, c, created);
    v := At(w2, c, OnlyMarkers(locked), Cleared(created));
    Onward(ixs, u, w2, c, v);
    ReceiptAlone(w.snap, v.snap);
  }

  lemma MarkersAlone(nodes: Tree, bare: Tree)
    requires TreeOk(nodes) && bare == map q | q in nodes && |q| > 0 && q[0] in MARKERS :: nodes[q]
    ensures Clearing(nodes, bare)
  {
    forall q | q in bare && |q| > 1 ensures IsDir(bare, q[..|q| - 1]) {
      assert IsDir(nodes, q[..|q| - 1]) && q[..|q| - 1][0] == q[0];
    }
  }

  lemma ReceiptAlone(s: Snap, t: Snap)
    requires Honest(s) && HasReceipt(s.nodes) && COMPLETE in t.nodes && t.nodes[COMPLETE] == s.nodes[COMPLETE]
    requires forall q :: q in t.nodes ==> |q| > 0 && q[0] in MARKERS
    ensures !Honest(t)
  {
    var table := s.nodes[COMPLETE].content.receipt.table;
    assert table[0] in table && table[0].path[0] !in RESERVED;
    assert !Present(t.nodes, table[0]);
  }

  /** A LATE LOCK: a looked call takes the free lock.  Over a receipt the calls can go on to a receipt
      over missing segments; over a tree without a receipt and without links they never can. */
  lemma LateLockIff(ixs: seq<Index>, w: World, c: nat)
    requires GoodEggs(ixs) && Inv(ixs, w) && c < |ixs| && w.phases[c].Looked?
    requires w.snap.root.Directory? && EXPANDING !in w.snap.nodes
    requires HasReceipt(w.snap.nodes) || Stage(w.snap.nodes, [])
    ensures (exists u, v :: LeadsAstray(ixs, w, c, u, v)) <==> HasReceipt(w.snap.nodes)
  {
    assert ixs[c] in ixs;
    if HasReceipt(w.snap.nodes) {
      var u, v := LateLockBreaks(ixs, w, c);
    } else {
      forall u, v ensures !LeadsAstray(ixs, w, c, u, v) {
        if LeadsAstray(ixs, w, c, u, v) {
          StepKeepsHonest(ixs, w, c, u);
          ReachesHonest(ixs, u, v);
        }
      }
    }
  }

  lemma ReachesHonest(ixs: seq<Index>, u: World, v: World)
    requires GoodEggs(ixs) && Inv(ixs, u) && Reaches(ixs, u, v)
    ensures Inv(ixs, v)
  {
    var ws, cs :| Run(ixs, ws, cs) && NoLateLock(ws, cs) && ws[0] == u && ws[|cs|] == v;
    RunKeepsHonest(ixs, ws, cs, |cs|);
  }

  /** The call takes the lock, no lock after it is late, and some time later a receipt is dishonest. */
  ghost predicate LeadsAstray(ixs: seq<Index>, w: World, c: nat, u: World, v: World) {
    Step(ixs, w, c, u) && u.phases[c].Writing? && Reaches(ixs, u, v) && !Honest(v.snap)
  }

  // ------------------------------------------------------------ two runs from an empty directory

  const ONE_FILE: seq<Segment> := [Segment(["f"], "data", "", true)]
  const EMPTY := Snap(Directory, map[])
  const WRITTEN: Tree := map[EXPANDING := File(Progress), ["f"] := File(Data("data"))]

  function Sealed(ix: Index): Tree {
    WRITTEN[COMPLETE := File(Completed(ReceiptOf(ix)))]
  }

  lemma OneFile()
    ensures GoodTable(ONE_FILE) && NoLinkBelowLink(ONE_FILE) && InOrder(ONE_FILE) == ONE_FILE
    ensures "f" !in RESERVED
  {
    assert |"f"| == 1 && forall name :: name in RESERVED ==> |name| > 1;
    assert ONE_FILE[..0] == [] && ["f"][0] == "f";
    assert Files(ONE_FILE) == ONE_FILE && Links(ONE_FILE) == [];
  }

  lemma FileLands()
    ensures MayLand(LOCKED, WRITTEN, ONE_FILE[0], true)
  {
    OneFile();
    MarkerNames();
    assert Landing(LOCKED, WRITTEN, ["f"]) && Present(WRITTEN, ONE_FILE[0]) && Noting(WRITTEN, WRITTEN);
  }

  lemma SealedTrees(ix: Index)
    ensures TreeOk(WRITTEN) && TreeOk(Sealed(ix)) && TreeOk(Sealed(ix) - {EXPANDING})
    ensures Sealed(ix) == (WRITTEN - {COMPLETE_TMP})[COMPLETE := File(Completed(ReceiptOf(ix)))]
  {
    assert forall q :: q in Sealed(ix) || q in WRITTEN ==> |q| == 1;
    MarkerNames();
    assert COMPLETE_TMP != ["f"] by { assert COMPLETE_TMP[0] != "f" by { assert |"f"| == 1; } }
  }

  lemma CanLook(ixs: seq<Index>, w: World, c: nat)
    requires |ixs| == |w.phases| && c < |ixs| && w.snap == EMPTY && w.phases[c].Start?
    ensures Step(ixs, w, c, At(w, c, map[], Looked(false)))
  {
  }

  lemma CanWrite(ixs: seq<Index>, w: World, c: nat)
    requires |ixs| == |w.phases| && c < |ixs| && ixs[c].table == ONE_FILE
    requires w.snap == Snap(Directory, LOCKED) && w.phases[c] == Writing(false, 0)
    ensures Step(ixs, w, c, At(w, c, WRITTEN, Writing(false, 1)))
  {
    OneFile();
    FileLands();
  }

  lemma CanSeal(ixs: seq<Index>, w: World, c: nat)
    requires |ixs| == |w.phases| && c < |ixs| && ixs[c].table == ONE_FILE
    requires w.snap == Snap(Directory, WRITTEN) && w.phases[c] == Writing(false, 1)
    ensures Step(ixs, w, c, At(w, c, Sealed(ixs[c]), Certified))
  {
    OneFile();
    SealedTrees(ixs[c]);
  }

  lemma CanDrop(ixs: seq<Index>, w: World, c: nat, gone: set<Path>, q: Phase)
    requires |ixs| == |w.phases| && c < |ixs| && TreeOk(w.snap.nodes - gone)
    requires (w.phases[c].Certified? && gone == {EXPANDING} && q == Over)
          || (w.phases[c].Cleared? && gone == {EXPANDING_TMP, EXPANDING} && q == Unlocked(w.phases[c].created))
    ensures Step(ixs, w, c, At(w, c, w.snap.nodes - gone, q))
  {
    assert gone <= gone;
  }

  /** One call for the one-file egg, alone from its look to the removal of its lock, in a directory that
      is empty. */
  lemma CompletesAlone(ixs: seq<Index>, w0: World, w: World, c: nat)
    requires |ixs| == |w.phases| && c < |ixs| && ixs[c].table == ONE_FILE && w.snap == EMPTY && w.phases[c].Start?
    requires Reaches(ixs, w0, w)
    ensures Reaches(ixs, w0, At(w, c, Sealed(ixs[c]) - {EXPANDING}, Over))
  {
    var w2 := LocksAlone(ixs, w0, w, c);
    var w4 := SealsAlone(ixs, w0, w2, c);
    SealedTrees(ixs[c]);
    CanDrop(ixs, w4, c, {EXPANDING}, Over);
    Onward(ixs, w0, w4, c, At(w4, c, Sealed(ixs[c]) - {EXPANDING}, Over));
  }

  lemma SealsAlone(ixs: seq<Index>, w0: World, w: World, c: nat) returns (v: World)
    requires |ixs| == |w.phases| && c < |ixs| && ixs[c].table == ONE_FILE && Reaches(ixs, w0, w)
    requires w.snap == Snap(Directory, LOCKED) && w.phases[c] == Writing(false, 0)
    ensures v == At(w, c, Sealed(ixs[c]), Certified) && Reaches(ixs, w0, v)
  {
    var w3 := At(w, c, WRITTEN, Writing(false, 1));
    CanWrite(ixs, w, c);
    Onward(ixs, w0, w, c, w3);
    v := At(w3, c, Sealed(ixs[c]), Certified);
    CanSeal(ixs, w3, c);
    Onward(ixs, w0, w3, c, v);
  }

  lemma LocksAlone(ixs: seq<Index>, w0: World, w: World, c: nat) returns (v: World)
    requires |ixs| == |w.phases| && c < |ixs| && w.snap == EMPTY && w.phases[c].Start? && Reaches(ixs, w0, w)
    ensures v == At(w, c, LOCKED, Writing(false, 0)) && Reaches(ixs, w0, v)
  {
    var w1 := At(w, c, map[], Looked(false));
    CanLook(ixs, w, c);
    Onward(ixs, w0, w, c, w1);
    v := At(w1, c, LOCKED, Writing(false, 0));
    CanLock(ixs, w1, c, false);
    Onward(ixs, w0, w1, c, v);
  }

  lemma ClearsAlone(ixs: seq<Index>, w0: World, w: World, c: nat) returns (v: World)
    requires |ixs| == |w.phases| && c < |ixs| && GoodTable(ixs[c].table) && Reaches(ixs, w0, w)
    requires w.snap == Snap(Directory, LOCKED) && w.phases[c] == Writing(false, 0)
    ensures v == At(w, c, LOCKED, Cleared(false)) && Reaches(ixs, w0, v)
  {
    var w3 := At(w, c, LOCKED, Failing(false));
    CanFail(ixs, w, c, false);
    Onward(ixs, w0, w, c, w3);
    v := At(w3, c, LOCKED, Cleared(false));
    assert OnlyMarkers(LOCKED) == LOCKED;
    CanClear(ixs, w3, c, false);
    Onward(ixs, w0, w3, c, v);
  }

  /** A call that fails at its first row and rolls back as far as the lock. */
  lemma RollsBack(ixs: seq<Index>, w0: World, w: World, c: nat)
    requires |ixs| == |w.phases| && c < |ixs| && GoodTable(ixs[c].table) && w.snap == EMPTY && w.phases[c].Start?
    requires Reaches(ixs, w0, w)
    ensures Reaches(ixs, w0, At(w, c, map[], Unlocked(false)))
  {
    var w2 := LocksAlone(ixs, w0, w, c);
    var w4 := ClearsAlone(ixs, w0, w2, c);
    assert LOCKED - {EXPANDING_TMP, EXPANDING} == map[];
    CanDrop(ixs, w4, c, {EXPANDING_TMP, EXPANDING}, Unlocked(false));
    Onward(ixs, w0, w4, c, At(w4, c, map[], Unlocked(false)));
  }

  /** A LOCK TAKEN LATE: in an empty directory the second call looks first, the first call completes, and
      then the second one's lock, a failure and its rollback leave the receipt over missing segments. */
  lemma LateLockHappens(ix: Index) returns (w: World)
    requires ix.table == ONE_FILE
    ensures Reaches([ix, ix], World(EMPTY, [Start, Start]), w)
    ensures w == World(Snap(Directory, Sealed(ix) - {EXPANDING}), [Over, Looked(false)])
    ensures exists u, v :: LeadsAstray([ix, ix], w, 1, u, v)
  {
    var ixs, w0 := [ix, ix], World(EMPTY, [Start, Start]);
    Here(ixs, w0);
    var w1 := At(w0, 1, map[], Looked(false));
    CanLook(ixs, w0, 1);
    Onward(ixs, w0, w0, 1, w1);
    CompletesAlone(ixs, w0, w1, 0);
    w := At(w1, 0, Sealed(ix) - {EXPANDING}, Over);
    AfterOne(ixs, w, ix);
    LateLockIff(ixs, w, 1);
  }

  lemma AfterOne(ixs: seq<Index>, w: World, ix: Index)
    requires ix.table == ONE_FILE && w.snap == Snap(Directory, Sealed(ix) - {EXPANDING})
    requires |ixs| == |w.phases| && forall p :: p in w.phases ==> !Holds(p)
    ensures (ix in ixs && (forall x :: x in ixs ==> x == ix) ==> GoodEggs(ixs))
    ensures Inv(ixs, w) && HasReceipt(w.snap.nodes) && EXPANDING !in w.snap.nodes
  {
    OneFile();
    MarkerNames();
    SealedTrees(ix);
    assert forall c :: 0 <= c < |w.phases| ==> w.phases[c] in w.phases;
  }

  /** A STALE ROLLBACK: in an empty directory the first call fails and gives up its lock, the second call
      completes, and then the first goes on to remove a receipt: the second's.  No lock is taken late. */
  lemma StaleRollbackHappens(ix: Index) returns (w: World, v: World)
    requires ix.table == ONE_FILE
    ensures Reaches([ix, ix], World(EMPTY, [Start, Start]), w)
    ensures w == World(Snap(Directory, Sealed(ix) - {EXPANDING}), [Unlocked(false), Over])
    ensures HasReceipt(w.snap.nodes) && Step([ix, ix], w, 0, v) && COMPLETE !in v.snap.nodes && Occupied(v.snap.nodes)
  {
    w := RollbackWaits(ix);
    AfterOne([ix, ix], w, ix);
    CanStrip([ix, ix], w, 0);
    v := Stripped(w, 0);
    FileStays(v.snap.nodes);
  }

  lemma RollbackWaits(ix: Index) returns (w: World)
    requires ix.table == ONE_FILE
    ensures Reaches([ix, ix], World(EMPTY, [Start, Start]), w)
    ensures w == World(Snap(Directory, Sealed(ix) - {EXPANDING}), [Unlocked(false), Over])
  {
    var ixs, w0 := [ix, ix], World(EMPTY, [Start, Start]);
    OneFile();
    Here(ixs, w0);
    RollsBack(ixs, w0, w0, 0);
    var w5 := At(w0, 0, map[], Unlocked(false));
    CompletesAlone(ixs, w0, w5, 1);
    w := At(w5, 1, Sealed(ix) - {EXPANDING}, Over);
  }

  lemma FileStays(nodes: Tree)
    requires ["f"] in nodes
    ensures Occupied(nodes)
  {
    assert "f" !in MARKERS by { assert |"f"| == 1; }
  }

  /** From then on the directory is refused to every egg, for good. */
  lemma ContentWithoutReceipt(s: Snap, t: Snap, q: Phase)
    requires SnapOk(s) && Occupied(s.nodes) && COMPLETE !in s.nodes && Looks(s, t, q)
    ensures q.Over? && t == s
  {
    var p :| p in s.nodes && |p| > 0 && p[0] !in MARKERS;
  }
}

/**
Expanding an egg (a segment table with contents) into a directory: the tree a run works on, the
marker files that make it crash-safe, and what one call promises about the tree it leaves behind.
Hashes stand for the contents they fix: a receipt names the table whose hash it records.
*/
module Expansion {

  type Path = seq<string>

  /** One row of the table: a file with the content its hash fixes, or, with a target, a link. */
  datatype Segment = Segment(path: Path, content: string, target: string, modeOk: bool) {
    predicate IsLink() {
      target != ""
    }
  }

  datatype Index = Index(gen: nat, uuid: string, table: seq<Segment>, bytes: nat)

  datatype Receipt = Receipt(version: nat, gen: nat, uuid: string, table: seq<Segment>, bytes: nat)

  datatype Content =
    | Data(bytes: string)
    | Completed(receipt: Receipt)   // a receipt that parses
    | Progress
    | Failure
    | Partial                       // written in part, or not understood

  datatype Node = Dir | File(content: Content) | Link(target: string)

  type Tree = map<Path, Node>

  datatype Root = Missing | Blocked | Directory    // absent, in the way (not a directory), a directory

  datatype Snap = Snap(root: Root, nodes: Tree)

  const RECEIPT_VERSION := 1
  const COMPLETE: Path := [".complete"]
  const FAILED: Path := [".failed"]
  const EXPANDING: Path := [".expanding"]
  const EXPANDING_TMP: Path := [".expanding.tmp"]

  /** Marker files and the temporary names they are written under. */
  const RESERVED: set<string> :=
    {".complete", ".failed", ".expanding", ".expanding.tmp", ".complete.tmp", ".failed.tmp"}

  /** The names a directory listing skips when it asks whether there is anything else. */
  const MARKERS: set<string> := {".complete", ".failed", ".expanding", ".expanding.tmp"}

  datatype Outcome =
    | Done
    | Skipped
    | Refused
    | Failed(clean: bool)   // clean: the rollback reported no error
    | Crashed

  // ------------------------------------------------------------ well-formedness

  predicate ProperPrefix(p: Path, q: Path) {
    |p| < |q| && q[..|p|] == p
  }

  /** Every node's parent is a directory of the tree. */
  ghost predicate TreeOk(nodes: Tree) {
    forall q :: q in nodes ==> |q| > 0 && (|q| > 1 ==> IsDir(nodes, q[..|q| - 1]))
  }

  predicate IsDir(nodes: Tree, p: Path) {
    p in nodes && nodes[p].Dir?
  }

  lemma {:induction false} AncestorsAreDirs(nodes: Tree, q: Path, n: nat)
    requires TreeOk(nodes) && q in nodes && 0 < n < |q|
    ensures IsDir(nodes, q[..n])
    decreases |q| - n
  {
    if n < |q| - 1 {
      AncestorsAreDirs(nodes, q, n + 1);
      var p := q[..n + 1];
      assert p[..|p| - 1] == q[..n];
    }
  }

  ghost predicate SnapOk(s: Snap) {
    TreeOk(s.nodes) && (!s.root.Directory? ==> s.nodes == map[])
  }

  /** What reading an index guarantees of its table, and that no segment is named like a marker. */
  ghost predicate GoodTable(table: seq<Segment>) {
    && |table| > 0
    && (forall e :: e in table ==> |e.path| > 0 && e.path[0] !in RESERVED)
    && (forall j, k :: 0 <= j < k < |table| ==> table[j].path != table[k].path)
  }

  /** The segment is a node of its own, at its own path, with the content the table fixes. */
  ghost predicate Present(nodes: Tree, e: Segment) {
    e.path in nodes && nodes[e.path] == if e.IsLink() then Link(e.target) else File(Data(e.content))
  }

  ghost predicate AllPresent(nodes: Tree, table: seq<Segment>) {
    forall e :: e in table ==> Present(nodes, e)
  }

  /** No link segment lies below another link segment. */
  ghost predicate NoLinkBelowLink(table: seq<Segment>) {
    forall e, f :: e in table && f in table && e.IsLink() && f.IsLink() ==> !ProperPrefix(e.path, f.path)
  }

  /** Every file can be given its mode. */
  ghost predicate ModesOk(table: seq<Segment>) {
    forall e :: e in table ==> e.IsLink() || e.modeOk
  }

  /** A table that can land whole: files may be made with their modes, and no segment stands where
      another needs a directory. */
  ghost predicate Landable(table: seq<Segment>) {
    && GoodTable(table)
    && ModesOk(table)
    && (forall e, f :: e in table && f in table ==> !ProperPrefix(e.path, f.path))
  }

  function ReceiptOf(ix: Index): (r: Receipt)
    ensures r.version == 1 && r.gen == ix.gen && r.uuid == ix.uuid && r.table == ix.table && r.bytes == ix.bytes
  {
    Receipt(RECEIPT_VERSION, ix.gen, ix.uuid, ix.table, ix.bytes)
  }

  /** The receipt on the tree is that of this very egg: same generation, same identity, same table, same
      size. */
  predicate Certifies(nodes: Tree, ix: Index) {
    && HasReceipt(nodes)
    && var r := nodes[COMPLETE].content.receipt;
       r.version == 1 && r.gen == ix.gen && r.uuid == ix.uuid && r.table == ix.table && r.bytes == ix.bytes
  }

  predicate HasReceipt(nodes: Tree) {
    COMPLETE in nodes && nodes[COMPLETE].File? && nodes[COMPLETE].content.Completed?
  }

  /** The receipt's name is not taken by a symbolic link, which a read of it would follow. */
  predicate Plain(nodes: Tree) {
    COMPLETE in nodes ==> !nodes[COMPLETE].Link?
  }

  ghost predicate Backed(nodes: Tree, table: seq<Segment>) {
    GoodTable(table) && AllPresent(nodes, table)
  }

  /** THE RECEIPT IS HONEST: where there is one, every segment of the table it names is on disk. */
  ghost predicate Honest(s: Snap) {
    && Plain(s.nodes)
    && (HasReceipt(s.nodes) ==> Backed(s.nodes, s.nodes[COMPLETE].content.receipt.table))
  }

  /** Something besides marker files lies directly under the root. */
  ghost predicate Occupied(nodes: Tree) {
    exists p :: p in nodes && |p| > 0 && p[0] !in {".complete", ".failed", ".expanding", ".expanding.tmp"}
  }

  ghost predicate OnlyFailed(s: Snap) {
    s.root.Directory? && s.nodes == map[FAILED := File(Failure)]
  }

  /** A place to expand into: not there yet, or empty but for the note of an earlier failure. */
  ghost predicate Startable(s: Snap) {
    s.root.Missing? || (s.root.Directory? && forall q :: q in s.nodes ==> q == FAILED)
  }

  /** A tree that carries a receipt and something else is never written to again. */
  ghost predicate Settled(s: Snap) {
    HasReceipt(s.nodes) && Occupied(s.nodes)
  }

  // ------------------------------------------------------------ what one call promises

  ghost predicate CallKeeps(ix: Index, s: Snap, t: Snap) {
    NoLinkBelowLink(ix.table) && Honest(s) ==> Honest(t)
  }

  ghost predicate CallDone(ix: Index, s: Snap, t: Snap) {
    && t.root.Directory? && Certifies(t.nodes, ix)
    && (Plain(s.nodes) ==> (AllPresent(t.nodes, ix.table) <==> NoLinkBelowLink(ix.table)))
  }

  ghost predicate CallFailed(s: Snap, t: Snap, clean: bool) {
    clean ==> (s.root.Missing? && t == Snap(Missing, map[])) || OnlyFailed(t)
  }

  ghost predicate CallRefused(s: Snap, t: Snap) {
    || t == s
    || (s.root.Directory? && t.root.Directory? && t.nodes == s.nodes - {FAILED} && !Occupied(s.nodes))
    || (s.root.Missing? && t == Snap(Directory, map[]))
  }

  /** Every promise of one call on tree `s` that ended as `r` and left tree `t`. */
  ghost predicate CallResult(ix: Index, s: Snap, t: Snap, r: Outcome) {
    && SnapOk(t)
    && CallKeeps(ix, s, t)
    && (Settled(s) ==> t == s && (r.Skipped? || r.Refused? || r.Crashed?))
    && (EXPANDING in s.nodes ==> r.Skipped? || r.Refused? || r.Crashed?)
    && (r.Done? ==> CallDone(ix, s, t))
    && (r.Skipped? && Plain(s.nodes) ==> Certifies(s.nodes, ix))
    && (r.Failed? ==> CallFailed(s, t, r.clean))
    && (r.Refused? ==> CallRefused(s, t))
  }

  // ------------------------------------------------------------ whole runs of calls

  datatype Call = Call(ix: Index, outcome: Outcome)

  /** Trees and calls alternate: call k takes tree k to tree k + 1. */
  ghost predicate CallRun(snaps: seq<Snap>, calls: seq<Call>) {
    && |snaps| == |calls| + 1
    && forall k :: 0 <= k < |calls| ==> CallResult(calls[k].ix, snaps[k], snaps[k + 1], calls[k].outcome)
  }

  /** Whatever eggs are expanded into a directory, in any order, each call succeeding, failing or
      crashing at any step: a receipt found there at any time is honest. */
  lemma {:induction false} ReceiptAlwaysHonest(snaps: seq<Snap>, calls: seq<Call>, k: nat)
    requires CallRun(snaps, calls) && Honest(snaps[0]) && k < |snaps|
    requires forall c :: c in calls ==> NoLinkBelowLink(c.ix.table)
    ensures Honest(snaps[k])
  {
    if k > 0 {
      ReceiptAlwaysHonest(snaps, calls, k - 1);
      assert CallResult(calls[k - 1].ix, snaps[k - 1], snaps[k - 1 + 1], calls[k - 1].outcome);
      assert CallKeeps(calls[k - 1].ix, snaps[k - 1], snaps[k]);
    }
  }

  /** An honest receipt never stands alone, so a completed tree is settled. */
  lemma HonestIsOccupied(s: Snap)
    requires Honest(s) && HasReceipt(s.nodes)
    ensures Settled(s)
  {
    var table := s.nodes[COMPLETE].content.receipt.table;
    assert table[0] in table;
    assert Present(s.nodes, table[0]);
    assert table[0].path[0] !in RESERVED;
  }

  /** Once a call has completed, nothing later changes the tree: the same egg is skipped or refused,
      every other egg is refused, whichever way those calls end. */
  lemma {:induction false} CompletedStays(snaps: seq<Snap>, calls: seq<Call>, j: nat, k: nat)
    requires CallRun(snaps, calls) && Honest(snaps[0])
    requires forall c :: c in calls ==> NoLinkBelowLink(c.ix.table)
    requires j < |calls| && calls[j].outcome.Done? && j < k < |snaps|
    ensures snaps[k] == snaps[j + 1]
    ensures j + 1 < k ==> !calls[k - 1].outcome.Done? && !calls[k - 1].outcome.Failed?
    ensures j + 1 < k && calls[k - 1].outcome.Skipped? ==>
      var other, ix := calls[k - 1].ix, calls[j].ix;
      other.gen == ix.gen && other.uuid == ix.uuid && other.table == ix.table && other.bytes == ix.bytes
    decreases k
  {
    assert CallResult(calls[j].ix, snaps[j], snaps[j + 1], calls[j].outcome);
    if k > j + 1 {
      CompletedStays(snaps, calls, j, k - 1);
      ReceiptAlwaysHonest(snaps, calls, k - 1);
      HonestIsOccupied(snaps[k - 1]);
      assert CallResult(calls[k - 1].ix, snaps[k - 1], snaps[k - 1 + 1], calls[k - 1].outcome);
    }
  }

  /** A RECEIPT TELLS EGGS APART: after a completed call nothing changes, whichever egg comes next, and only
      an egg with the same generation, identity, table and size is answered as already there; any other
      is refused (or its call crashes). */
  lemma OtherGenerationRefused(ix: Index, other: Index, s: Snap, t: Snap, u: Snap, r: Outcome)
    requires GoodTable(ix.table) && NoLinkBelowLink(ix.table)
    requires Plain(s.nodes) && CallResult(ix, s, t, Done) && CallResult(other, t, u, r)
    ensures u == t
    ensures r.Skipped? ==> other.gen == ix.gen && other.uuid == ix.uuid && other.table == ix.table && other.bytes == ix.bytes
    ensures other.gen != ix.gen || other.uuid != ix.uuid || other.table != ix.table || other.bytes != ix.bytes ==>
      r.Refused? || r.Crashed?
  {
    assert Honest(t);
    HonestIsOccupied(t);
  }

  // ------------------------------------------------------------ where it fails

  const LINKED_TABLE: seq<Segment> :=
    [Segment(["d", "f"], "data", "", true), Segment(["a"], "", "d", true), Segment(["a", "b"], "", "f", true)]

  lemma LinkedTable()
    ensures GoodTable(LINKED_TABLE) && !NoLinkBelowLink(LINKED_TABLE)
  {
    LinkedPaths();
    var e, f := LINKED_TABLE[1], LINKED_TABLE[2];
    assert e in LINKED_TABLE && f in LINKED_TABLE && e.IsLink() && f.IsLink();
    assert ["a", "b"][..1] == ["a"];
    assert ProperPrefix(e.path, f.path);
  }

  lemma LinkedPaths()
    ensures GoodTable(LINKED_TABLE)
  {
    assert |"a"| == 1 && |"d"| == 1 && "a"[0] != "d"[0];
    assert forall name :: name in RESERVED ==> |name| > 1;
    assert |["a"]| == 1 && |["a", "b"]| == 2 && |["d", "f"]| == 2;
    assert ["a", "b"][0] == "a" && ["d", "f"][0] == "d";
  }
}

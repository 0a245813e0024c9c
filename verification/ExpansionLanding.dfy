/**
What landing a table comes to when no operation fails: directories made on the way as os.MkdirAll
makes them, links followed as the system follows them, one row after another.
*/
module ExpansionLanding {
  import opened Expansion
  import Symlinks

  predicate IsLinkAt(nodes: Tree, p: Path) {
    p in nodes && nodes[p].Link?
  }

  function ParentOf(p: Path): Path
    requires |p| > 0
  {
    p[..|p| - 1]
  }

  function LastOf(p: Path): string
    requires |p| > 0
  {
    p[|p| - 1]
  }

  /** A directory of the tree, or its root. */
  predicate IsPlace(nodes: Tree, p: Path) {
    p == [] || IsDir(nodes, p)
  }

  // ------------------------------------------------------------ following links

  /** Where a walk ends: at a directory with so many more links allowed, nowhere, or above the root. */
  datatype Walked = At(dir: Path, left: nat) | Barred | Away

  /** The system's walk from a directory: a link is replaced by its target's components, and ".." goes
      to the directory above wherever the walk has come to. */
  function Follow(nodes: Tree, at: Path, cs: seq<string>, left: nat): Walked
    decreases left, |cs|
  {
    if cs == [] then At(at, left)
    else if cs[0] == "" || cs[0] == "." then Follow(nodes, at, cs[1..], left)
    else if cs[0] == ".." then if at == [] then Away else Follow(nodes, ParentOf(at), cs[1..], left)
    else
      var q := at + [cs[0]];
      if q !in nodes then Barred
      else match nodes[q]
        case Dir => Follow(nodes, q, cs[1..], left)
        case File(_) => Barred
        case Link(target) =>
          if target == "" || left == 0 then Barred
          else if target[0] == '/' then Away
          else Follow(nodes, at, Symlinks.Components(target) + cs[1..], left - 1)
  }

  /** A walk through the tree ends at a directory of the tree. */
  lemma {:induction false} FollowPlace(nodes: Tree, at: Path, cs: seq<string>, left: nat)
    requires TreeOk(nodes) && IsPlace(nodes, at)
    ensures Follow(nodes, at, cs, left).At? ==> IsPlace(nodes, Follow(nodes, at, cs, left).dir)
    decreases left, |cs|
  {
    if cs == [] {
    } else if cs[0] == "" || cs[0] == "." {
      FollowPlace(nodes, at, cs[1..], left);
    } else if cs[0] == ".." {
      if at != [] { FollowPlace(nodes, ParentOf(at), cs[1..], left); }
    } else {
      var q := at + [cs[0]];
      if q in nodes {
        match nodes[q] {
          case Dir => FollowPlace(nodes, q, cs[1..], left);
          case File(_) =>
          case Link(target) =>
            if target != "" && left > 0 && target[0] != '/' {
              FollowPlace(nodes, at, Symlinks.Components(target) + cs[1..], left - 1);
            }
        }
      }
    }
  }

  /** os.MkdirAll from a directory on: what is missing is made, what is there must be a directory, or a
      link that leads to one. */
  function Mkdirs(nodes: Tree, at: Path, cs: Path, left: nat): (Tree, Walked)
    decreases |cs|
  {
    if cs == [] then (nodes, At(at, left))
    else
      var q := at + [cs[0]];
      if q !in nodes then Mkdirs(nodes[q := Dir], q, cs[1..], left)
      else
        match Entered(nodes, at, cs[0], left)
        case At(dir, l) => Mkdirs(nodes, dir, cs[1..], l)
        case w => (nodes, w)
  }

  /** What is already there, entered. */
  function Entered(nodes: Tree, at: Path, c: string, left: nat): Walked
    requires at + [c] in nodes
  {
    if nodes[at + [c]].Dir? then At(at + [c], left) else if nodes[at + [c]].File? then Barred
    else Follow(nodes, at, [c], left)
  }

  // ------------------------------------------------------------ landing rows

  function NodeOf(e: Segment): Node {
    if e.IsLink() then Link(e.target) else File(Data(e.content))
  }

  /** The progress file and its temporary are the only entries under reserved names. */
  ghost predicate TidyMarkers(nodes: Tree) {
    forall q :: q in nodes && |q| > 0 && q[0] in RESERVED ==> (q == EXPANDING || q == EXPANDING_TMP) && nodes[q].File?
  }

  /** A landing succeeds, is refused, or strays: out of the tree, or onto a marker's name. */
  datatype Landed = Lands(nodes: Tree) | Stuck | Strays

  ghost function LandRow(nodes: Tree, e: Segment, limit: nat): Landed
    requires |e.path| > 0
  {
    var (made, w) := Mkdirs(nodes, [], ParentOf(e.path), limit);
    match w
    case Away => Strays
    case Barred => Stuck
    case At(dir, _) =>
      if !Fits(made, dir + [LastOf(e.path)], e) then Stuck
      else
        var t := made[dir + [LastOf(e.path)] := NodeOf(e)];
        if TidyMarkers(t) then Lands(t) else Strays
  }

  /** A link may only replace a link; a file, with a mode it can be given, anything but a directory. */
  predicate Fits(nodes: Tree, at: Path, e: Segment) {
    if e.IsLink() then at in nodes ==> nodes[at].Link? else e.modeOk && !IsDir(nodes, at)
  }

  /** The progress note after a landing. */
  function Noted(nodes: Tree): Tree {
    (nodes - {EXPANDING_TMP})[EXPANDING := File(Progress)]
  }

  ghost function LandRows(nodes: Tree, rows: seq<Segment>, limit: nat): Landed
    requires forall e :: e in rows ==> |e.path| > 0
    decreases |rows|
  {
    if rows == [] then Lands(nodes)
    else
      match LandRow(nodes, rows[0], limit)
      case Lands(t) => LandRows(Noted(t), rows[1..], limit)
      case w => w
  }

  lemma {:induction false} LandRowsJoin(nodes: Tree, a: seq<Segment>, b: seq<Segment>, limit: nat)
    requires forall e :: e in a + b ==> |e.path| > 0
    ensures forall e :: e in a || e in b ==> e in a + b
    ensures LandRows(nodes, a + b, limit) ==
      match LandRows(nodes, a, limit) case Lands(t) => LandRows(t, b, limit) case w => w
    decreases |a|
  {
    if a == [] {
      assert a + b == b;
    } else {
      assert (a + b)[1..] == a[1..] + b && forall e :: e in a[1..] + b ==> e in a + b;
      match LandRow(nodes, a[0], limit) {
        case Lands(t) => LandRowsJoin(Noted(t), a[1..], b, limit);
        case _ =>
      }
    }
  }

  function Files(table: seq<Segment>): seq<Segment> {
    if table == [] then []
    else Files(table[..|table| - 1]) + if table[|table| - 1].IsLink() then [] else [table[|table| - 1]]
  }

  function Links(table: seq<Segment>): seq<Segment> {
    if table == [] then []
    else Links(table[..|table| - 1]) + if table[|table| - 1].IsLink() then [table[|table| - 1]] else []
  }

  lemma {:induction false} SplitExact(table: seq<Segment>)
    ensures forall e :: e in Files(table) <==> e in table && !e.IsLink()
    ensures forall e :: e in Links(table) <==> e in table && e.IsLink()
  {
    if table != [] {
      var n := |table| - 1;
      SplitExact(table[..n]);
      assert table == table[..n] + [table[n]];
    }
  }

  // ------------------------------------------------------------ a whole call without faults

  const LOCKED: Tree := map[EXPANDING := File(Progress)]

  /** What is left when the receipt is written and the lock is gone. */
  function Finished(nodes: Tree, ix: Index): Tree {
    (nodes - {EXPANDING})[COMPLETE := File(Completed(ReceiptOf(ix)))]
  }

  /** The landing of a whole table into an empty place: files first, links after them. */
  ghost function LandTable(table: seq<Segment>, limit: nat): Landed
    requires GoodTable(table)
  {
    SplitExact(table);
    LandRows(LOCKED, Files(table) + Links(table), limit)
  }

  /** Where nothing may be written: a place that is no directory is refused; a directory with content is answered by
      whose receipt it carries, none included; a locked one is refused, unless the receipt is there already. */
  ghost predicate CalmEntry(ix: Index, s: Snap, t: Snap, r: Outcome) {
    && (s.root.Blocked? ==> t == s && r == Refused)
    && (s.root.Directory? && Occupied(s.nodes) && Plain(s.nodes) ==>
          t == s && r == if Certifies(s.nodes, ix) then Skipped else Refused)
    && (s.root.Directory? && EXPANDING in s.nodes && Plain(s.nodes) && !Certifies(s.nodes, ix) ==> r == Refused)
  }

  /** WITHOUT FAULTS: see CalmEntry for the places that are taken.  Into an empty place (or one with a failure
      note) a table is expanded if its rows land, to exactly the tree they make, and fails if one is refused.
      Without a link below a link it is expanded exactly if it can land whole, and otherwise the attempt is
      cleaned away. */
  ghost predicate CalmResult(limit: nat, ix: Index, s: Snap, t: Snap, r: Outcome)
    requires GoodTable(ix.table)
  {
    && CalmEntry(ix, s, t, r)
    && (Startable(s) ==>
          match LandTable(ix.table, limit)
          case Lands(nodes) => r.Done? && t.nodes == Finished(nodes, ix)
          case Stuck => r.Failed?
          case Strays => true)
    && (Startable(s) && NoLinkBelowLink(ix.table) ==> r == if Landable(ix.table) then Done else Failed(true))
  }

  /** THE NEXT CALL, without faults, after a completed one: skipped exactly for an egg with the same
      generation, identity, table and size, and refused for every other. */
  lemma AnsweredByReceipt(limit: nat, ix: Index, other: Index, s: Snap, t: Snap, u: Snap, r: Outcome)
    requires GoodTable(ix.table) && NoLinkBelowLink(ix.table) && GoodTable(other.table)
    requires Plain(s.nodes) && CallResult(ix, s, t, Done)
    requires CallResult(other, t, u, r) && CalmResult(limit, other, t, u, r)
    ensures r.Skipped? <==> other.gen == ix.gen && other.uuid == ix.uuid && other.table == ix.table && other.bytes == ix.bytes
    ensures !r.Skipped? ==> r.Refused?
    ensures u == t
  {
    assert Honest(t);
    HonestIsOccupied(t);
  }

  // ------------------------------------------------------------ a clear way

  /** Only directories on the way to `p` were added, none under a reserved name. */
  ghost predicate Grown(a: Tree, b: Tree, p: Path) {
    && TreeOk(b)
    && (forall q :: q in a ==> q in b && b[q] == a[q])
    && (forall q :: q in b && q !in a ==> b[q].Dir? && 0 < |q| <= |p| && q == p[..|q|] && q[0] !in RESERVED)
  }

  /** From the n-th component of `p` on nothing but directories stands on the way to it. */
  ghost predicate WayClear(nodes: Tree, p: Path, from: nat) {
    forall n :: from < n <= |p| && p[..n] in nodes ==> nodes[p[..n]].Dir?
  }

  /** A clear way is made or taken as it is. */
  lemma {:induction false} MkdirsClear(nodes: Tree, at: Path, cs: Path, p: Path, left: nat)
    requires TreeOk(nodes) && at + cs == p && IsPlace(nodes, at) && WayClear(nodes, p, |at|)
    requires p != [] ==> p[0] !in RESERVED
    ensures Mkdirs(nodes, at, cs, left).1 == At(p, left)
    ensures Grown(nodes, Mkdirs(nodes, at, cs, left).0, p)
    decreases |cs|
  {
    if cs == [] {
      assert at == p;
    } else {
      var q := at + [cs[0]];
      OneOn(at, cs, p);
      if q !in nodes {
        var more := nodes[q := Dir];
        DirMade(nodes, q);
        ClearStill(nodes, q, p);
        MkdirsClear(more, q, cs[1..], p, left);
        GrownAgain(nodes, q, Mkdirs(more, q, cs[1..], left).0, p);
      } else {
        MkdirsClear(nodes, q, cs[1..], p, left);
      }
    }
  }

  lemma OneOn(at: Path, cs: Path, p: Path)
    requires cs != [] && at + cs == p
    ensures (at + [cs[0]]) + cs[1..] == p && p[..|at| + 1] == at + [cs[0]] && ParentOf(at + [cs[0]]) == at
  {
  }

  lemma ClearStill(nodes: Tree, q: Path, p: Path)
    requires |q| > 0 && WayClear(nodes, p, |q| - 1)
    ensures WayClear(nodes[q := Dir], p, |q|)
  {
  }

  lemma DirMade(nodes: Tree, q: Path)
    requires TreeOk(nodes) && q != [] && q !in nodes && IsPlace(nodes, ParentOf(q))
    ensures TreeOk(nodes[q := Dir])
  {
  }

  lemma GrownAgain(a: Tree, q: Path, c: Tree, p: Path)
    requires q !in a && 0 < |q| <= |p| && q == p[..|q|] && p[0] !in RESERVED && Grown(a[q := Dir], c, p)
    ensures Grown(a, c, p)
  {
  }

  // ------------------------------------------------------------ a table that can land whole, lands

  ghost predicate Above(table: seq<Segment>, q: Path) {
    exists e :: e in table && ProperPrefix(q, e.path)
  }

  /** One of the landed segments made this node. */
  ghost predicate MadeBy(landed: seq<Segment>, q: Path, n: Node) {
    exists e :: e in landed && e.path == q && NodeOf(e) == n
  }

  /** What landings without faults leave: directories above segments, landed segments, and the progress
      file. */
  ghost predicate Expected(nodes: Tree, table: seq<Segment>, landed: seq<Segment>) {
    forall q :: q in nodes && |q| > 0 ==>
      if q[0] in RESERVED then (q == EXPANDING || q == EXPANDING_TMP) && nodes[q].File?
      else if nodes[q].Dir? then Above(table, q) else MadeBy(landed, q, nodes[q])
  }

  ghost predicate Part(some: seq<Segment>, table: seq<Segment>) {
    forall e :: e in some ==> e in table
  }

  lemma PathsUnique(table: seq<Segment>)
    requires GoodTable(table)
    ensures forall e, f :: e in table && f in table && e.path == f.path ==> e == f
  {
  }

  lemma ExpectedClear(nodes: Tree, table: seq<Segment>, landed: seq<Segment>, e: Segment)
    requires Expected(nodes, table, landed) && Landable(table) && e in table && Part(landed, table)
    ensures WayClear(nodes, ParentOf(e.path), 0) && !IsDir(nodes, e.path)
    ensures e.path in nodes ==> nodes[e.path] == NodeOf(e)
  {
    var p := ParentOf(e.path);
    forall n | 0 < n <= |p| && p[..n] in nodes ensures nodes[p[..n]].Dir? {
      assert p[..n] == e.path[..n] && p[..n][0] == e.path[0];
      assert ProperPrefix(p[..n], e.path);
    }
    PathsUnique(table);
  }

  lemma MadeAbove(a: Tree, made: Tree, table: seq<Segment>, e: Segment, q: Path)
    requires e in table && |e.path| > 0 && Grown(a, made, ParentOf(e.path)) && q in made && q !in a
    ensures made[q].Dir? && Above(table, q) && q[0] !in RESERVED
  {
    var p := ParentOf(e.path);
    assert q == p[..|q|] && p[..|q|] == e.path[..|q|];
    assert ProperPrefix(q, e.path);
  }

  lemma MadeByMore(landed: seq<Segment>, e: Segment, q: Path, n: Node)
    requires MadeBy(landed, q, n)
    ensures MadeBy(landed + [e], q, n)
  {
    var f :| f in landed && f.path == q && NodeOf(f) == n;
    assert f in landed + [e];
  }

  lemma ExpectedNext(a: Tree, made: Tree, table: seq<Segment>, landed: seq<Segment>, e: Segment)
    requires Expected(a, table, landed) && e in table && |e.path| > 0 && e.path[0] !in RESERVED
    requires Grown(a, made, ParentOf(e.path))
    ensures Expected(made[e.path := NodeOf(e)], table, landed + [e])
  {
    var b, more := made[e.path := NodeOf(e)], landed + [e];
    forall q | q in b && |q| > 0
      ensures
        if q[0] in RESERVED then (q == EXPANDING || q == EXPANDING_TMP) && b[q].File?
        else if b[q].Dir? then Above(table, q) else MadeBy(more, q, b[q])
    {
      if q == e.path {
        assert e in more;
      } else if q in a {
        if MadeBy(landed, q, b[q]) { MadeByMore(landed, e, q, b[q]); }
      } else {
        MadeAbove(a, made, table, e, q);
      }
    }
  }

  lemma NodeLands(made: Tree, p: Path, n: Node)
    requires TreeOk(made) && p != [] && IsPlace(made, ParentOf(p)) && !IsDir(made, p)
    ensures TreeOk(made[p := n])
  {
    var b := made[p := n];
    forall q | q in b && |q| > 1 ensures IsDir(b, q[..|q| - 1]) {
      if q == p { assert IsDir(made, ParentOf(p)); } else { assert IsDir(made, q[..|q| - 1]); }
    }
  }

  lemma NotedExpected(nodes: Tree, table: seq<Segment>, landed: seq<Segment>)
    requires TreeOk(nodes) && Expected(nodes, table, landed)
    ensures TreeOk(Noted(nodes)) && Expected(Noted(nodes), table, landed)
  {
    assert EXPANDING[0] in RESERVED && EXPANDING_TMP[0] in RESERVED;
    forall q | q in Noted(nodes) && |q| > 1 ensures IsDir(Noted(nodes), q[..|q| - 1]) {
      assert IsDir(nodes, q[..|q| - 1]);
    }
  }

  lemma RowMade(nodes: Tree, p: Path, limit: nat) returns (made: Tree)
    requires TreeOk(nodes) && WayClear(nodes, p, 0) && (p != [] ==> p[0] !in RESERVED)
    ensures Mkdirs(nodes, [], p, limit) == (made, At(p, limit)) && Grown(nodes, made, p) && IsPlace(made, p)
  {
    assert [] + p == p;
    MkdirsClear(nodes, [], p, p, limit);
    MkdirsPlace(nodes, [], p, limit);
    made := Mkdirs(nodes, [], p, limit).0;
  }

  lemma RowAt(nodes: Tree, made: Tree, e: Segment, limit: nat)
    requires |e.path| > 0 && Mkdirs(nodes, [], ParentOf(e.path), limit) == (made, At(ParentOf(e.path), limit))
    requires Fits(made, e.path, e) && TidyMarkers(made[e.path := NodeOf(e)])
    ensures LandRow(nodes, e, limit) == Lands(made[e.path := NodeOf(e)])
  {
    assert ParentOf(e.path) + [LastOf(e.path)] == e.path;
  }

  lemma RowLands(nodes: Tree, table: seq<Segment>, landed: seq<Segment>, e: Segment, limit: nat)
    requires TreeOk(nodes) && Expected(nodes, table, landed) && Landable(table) && e in table && Part(landed, table)
    ensures LandRow(nodes, e, limit).Lands?
    ensures var t := Noted(LandRow(nodes, e, limit).nodes); TreeOk(t) && Expected(t, table, landed + [e])
  {
    ExpectedClear(nodes, table, landed, e);
    var made := RowMade(nodes, ParentOf(e.path), limit);
    ExpectedNext(nodes, made, table, landed, e);
    SpotKept(nodes, made, e);
    NodeLands(made, e.path, NodeOf(e));
    var t := made[e.path := NodeOf(e)];
    ExpectedTidy(t, table, landed + [e]);
    RowAt(nodes, made, e, limit);
    NotedExpected(t, table, landed + [e]);
  }

  lemma ExpectedTidy(nodes: Tree, table: seq<Segment>, landed: seq<Segment>)
    requires Expected(nodes, table, landed)
    ensures TidyMarkers(nodes)
  {
  }

  lemma SpotKept(nodes: Tree, made: Tree, e: Segment)
    requires |e.path| > 0 && Grown(nodes, made, ParentOf(e.path)) && !IsDir(nodes, e.path)
    requires e.path in nodes ==> nodes[e.path] == NodeOf(e)
    ensures !IsDir(made, e.path) && (e.path in made ==> made[e.path] == NodeOf(e))
  {
  }

  /** The place os.MkdirAll ends at is a directory by then. */
  lemma {:induction false} MkdirsPlace(nodes: Tree, at: Path, cs: Path, left: nat)
    requires TreeOk(nodes) && IsPlace(nodes, at)
    ensures var (made, w) := Mkdirs(nodes, at, cs, left);
      TreeOk(made) && (w.At? ==> IsPlace(made, w.dir)) && forall q :: q in nodes ==> q in made && made[q] == nodes[q]
    decreases |cs|
  {
    if cs != [] {
      var q := at + [cs[0]];
      if q !in nodes {
        assert ParentOf(q) == at;
        DirMade(nodes, q);
        MkdirsPlace(nodes[q := Dir], q, cs[1..], left);
      } else {
        FollowPlace(nodes, at, [cs[0]], left);
        match Entered(nodes, at, cs[0], left) {
          case At(dir, l) => MkdirsPlace(nodes, dir, cs[1..], l);
          case _ =>
        }
      }
    }
  }

  lemma {:induction false} RowsLand(nodes: Tree, table: seq<Segment>, landed: seq<Segment>, rows: seq<Segment>, limit: nat)
    requires TreeOk(nodes) && Expected(nodes, table, landed) && Landable(table) && Part(landed, table) && Part(rows, table)
    ensures var whole := LandRows(nodes, rows, limit); whole.Lands? && Expected(whole.nodes, table, table)
    decreases |rows|
  {
    if rows != [] {
      RowLands(nodes, table, landed, rows[0], limit);
      RowsLand(Noted(LandRow(nodes, rows[0], limit).nodes), table, landed + [rows[0]], rows[1..], limit);
    } else {
      ExpectedMore(nodes, table, landed);
    }
  }

  lemma ExpectedMore(nodes: Tree, table: seq<Segment>, landed: seq<Segment>)
    requires Expected(nodes, table, landed) && Part(landed, table)
    ensures Expected(nodes, table, table)
  {
    forall q | q in nodes && |q| > 0 && MadeBy(landed, q, nodes[q]) ensures MadeBy(table, q, nodes[q]) {
      var e :| e in landed && e.path == q && NodeOf(e) == nodes[q];
      assert e in table;
    }
  }

  lemma {:induction false} NoTemporary(nodes: Tree, rows: seq<Segment>, limit: nat)
    requires EXPANDING_TMP !in nodes && forall e :: e in rows ==> |e.path| > 0
    ensures LandRows(nodes, rows, limit).Lands? ==> EXPANDING_TMP !in LandRows(nodes, rows, limit).nodes
    decreases |rows|
  {
    if rows != [] {
      match LandRow(nodes, rows[0], limit) {
        case Lands(t) =>
          assert EXPANDING != EXPANDING_TMP by { TwoNames(); }
          NoTemporary(Noted(t), rows[1..], limit);
        case _ =>
      }
    }
  }

  lemma TwoNames()
    ensures EXPANDING != EXPANDING_TMP && COMPLETE != EXPANDING && COMPLETE != EXPANDING_TMP
  {
    assert |".expanding"| == 10 && |".expanding.tmp"| == 14 && |".complete"| == 9;
    assert EXPANDING[0] == ".expanding" && EXPANDING_TMP[0] == ".expanding.tmp" && COMPLETE[0] == ".complete";
  }

  /** NOTHING BUT THE EGG: without faults, in an empty place, a call that is done for a table that can land
      leaves the receipt, every segment at its own path, the directories above them, and nothing else: no
      lock, no progress, no note, no temporary. */
  lemma ExactlyTheEgg(limit: nat, ix: Index, s: Snap, t: Snap, r: Outcome)
    requires Landable(ix.table) && Startable(s) && CalmResult(limit, ix, s, t, r)
    ensures r.Done? && Certifies(t.nodes, ix)
    ensures forall q :: q in t.nodes && |q| > 0 && q != COMPLETE ==>
      if t.nodes[q].Dir? then exists e :: e in ix.table && ProperPrefix(q, e.path)
      else exists e :: e in ix.table && e.path == q && t.nodes[q] == if e.IsLink() then Link(e.target) else File(Data(e.content))
  {
    var rows := Files(ix.table) + Links(ix.table);
    LockedExpected(ix.table);
    SplitExact(ix.table);
    TwoNames();
    RowsLand(LOCKED, ix.table, [], rows, limit);
    NoTemporary(LOCKED, rows, limit);
    var whole := LandTable(ix.table, limit).nodes;
    forall q | q in t.nodes && |q| > 0 && q != COMPLETE
      ensures if t.nodes[q].Dir? then Above(ix.table, q) else MadeBy(ix.table, q, t.nodes[q])
    {
      assert q in whole && q != EXPANDING && q != EXPANDING_TMP;
    }
  }

  lemma LockedExpected(table: seq<Segment>)
    ensures TreeOk(LOCKED) && Expected(LOCKED, table, [])
  {
    assert EXPANDING[0] in RESERVED;
  }

  /** A table whose segments do not stand in each other's way always lands. */
  lemma LandableLands(table: seq<Segment>, limit: nat)
    requires Landable(table)
    ensures LandTable(table, limit).Lands?
  {
    LockedExpected(table);
    SplitExact(table);
    RowsLand(LOCKED, table, [], Files(table) + Links(table), limit);
  }

  // ------------------------------------------------------------ a link below a link

  const FILE_D_F: Segment := LINKED_TABLE[0]
  const LINK_A: Segment := LINKED_TABLE[1]
  const LINK_A_B: Segment := LINKED_TABLE[2]

  const TREE_1: Tree := LOCKED[["d"] := Dir][["d", "f"] := File(Data("data"))]
  const TREE_2: Tree := TREE_1[["a"] := Link("d")]
  const TREE_3: Tree := TREE_2[["d", "b"] := Link("f")]

  lemma LinkedNames()
    ensures "d" !in RESERVED && "a" !in RESERVED && EXPANDING[0] in RESERVED && EXPANDING != EXPANDING_TMP
    ensures ["d"] != ["a"] && ["d", "f"] != ["d", "b"] && EXPANDING[0] == ".expanding"
    ensures Symlinks.Components("d") == ["d"]
  {
    LinkedPaths();
    assert FILE_D_F.path[0] == "d" && LINK_A.path[0] == "a";
    assert |"f"| == 1 && |"b"| == 1 && "f"[0] != "b"[0] && |"d"| == 1 && |"a"| == 1 && "d"[0] != "a"[0];
    assert ["d", "f"][1] == "f" && ["d", "b"][1] == "b" && ["d"][0] == "d" && ["a"][0] == "a";
    assert |".expanding"| == 10 && |".expanding.tmp"| == 14 && EXPANDING[0] == ".expanding" && EXPANDING_TMP[0] == ".expanding.tmp";
    assert "d"[1..] == "" && Symlinks.Components("") == [""] && ['d'] + "" == "d";
  }

  lemma FirstRow(limit: nat)
    ensures LandRow(LOCKED, FILE_D_F, limit) == Lands(TREE_1) && Noted(TREE_1) == TREE_1
  {
    LinkedNames();
    var p := ["d"];
    assert ParentOf(FILE_D_F.path) == p && p[1..] == [] && [] + ["d"] == p;
    var made := LOCKED[p := Dir];
    assert Mkdirs(made, p, [], limit) == (made, At(p, limit));
    assert Mkdirs(LOCKED, [], p, limit) == (made, At(p, limit));
    assert p + [LastOf(FILE_D_F.path)] == ["d", "f"];
  }

  lemma SecondRow(limit: nat)
    ensures LandRow(TREE_1, LINK_A, limit) == Lands(TREE_2) && Noted(TREE_2) == TREE_2
  {
    LinkedNames();
    assert ParentOf(LINK_A.path) == [] && [] + [LastOf(LINK_A.path)] == ["a"];
    assert Mkdirs(TREE_1, [], [], limit) == (TREE_1, At([], limit));
  }

  lemma LinkFollowed(nodes: Tree, limit: nat)
    requires limit > 0 && ["a"] in nodes && nodes[["a"]] == Link("d") && IsDir(nodes, ["d"])
    ensures Mkdirs(nodes, [], ["a"], limit) == (nodes, At(["d"], limit - 1))
  {
    var p, d := ["a"], ["d"];
    LinkedNames();
    assert p[1..] == [] && d[1..] == [] && [] + [p[0]] == p && [] + [d[0]] == d && d + p[1..] == d;
    assert Follow(nodes, d, [], limit - 1) == At(d, limit - 1);
    assert Follow(nodes, [], d, limit - 1) == At(d, limit - 1);
    assert Follow(nodes, [], p, limit) == At(d, limit - 1);
    assert Mkdirs(nodes, d, [], limit - 1) == (nodes, At(d, limit - 1));
  }

  /** The directory `a` is looked for and the link followed: the segment lands as `d/b`. */
  lemma ThirdRow(limit: nat)
    requires limit > 0
    ensures LandRow(TREE_2, LINK_A_B, limit) == Lands(TREE_3) && Noted(TREE_3) == TREE_3
  {
    SecondTree();
    ThirdTree();
    LinkFollowed(TREE_2, limit);
    ThirdPath();
    RowThere(TREE_2, LINK_A_B, ["d"], limit - 1, limit);
  }

  lemma SecondTree()
    ensures ["a"] in TREE_2 && TREE_2[["a"]] == Link("d") && IsDir(TREE_2, ["d"])
  {
    LinkedNames();
    assert |["d", "f"]| == 2 && |["d"]| == 1 && |["a"]| == 1;
  }

  lemma ThirdTree()
    ensures Fits(TREE_2, ["d", "b"], LINK_A_B) && TREE_2[["d", "b"] := NodeOf(LINK_A_B)] == TREE_3
    ensures TidyMarkers(TREE_3) && Noted(TREE_3) == TREE_3
  {
    LinkedNames();
    assert |["d", "b"]| == 2 && |["d"]| == 1 && |["a"]| == 1 && |EXPANDING| == 1;
  }

  lemma ThirdPath()
    ensures ParentOf(LINK_A_B.path) == ["a"] && ["d"] + [LastOf(LINK_A_B.path)] == ["d", "b"]
  {
  }

  lemma RowThere(nodes: Tree, e: Segment, dir: Path, left: nat, limit: nat)
    requires |e.path| > 0 && Mkdirs(nodes, [], ParentOf(e.path), limit) == (nodes, At(dir, left))
    requires Fits(nodes, dir + [LastOf(e.path)], e) && TidyMarkers(nodes[dir + [LastOf(e.path)] := NodeOf(e)])
    ensures LandRow(nodes, e, limit) == Lands(nodes[dir + [LastOf(e.path)] := NodeOf(e)])
  {
  }

  lemma LinkedOrder()
    ensures Files(LINKED_TABLE) + Links(LINKED_TABLE) == [FILE_D_F, LINK_A, LINK_A_B]
  {
    var t := LINKED_TABLE;
    assert t[..3] == t && t[..3][..2] == t[..2] && t[..2][..1] == t[..1] && t[..1][..0] == [];
    assert Files(t[..1]) == [FILE_D_F] && Links(t[..1]) == [];
    assert Files(t[..2]) == [FILE_D_F] && Links(t[..2]) == [LINK_A];
    assert Files(t) == [FILE_D_F] && Links(t) == [LINK_A, LINK_A_B];
  }

  lemma LinkedLands(limit: nat)
    requires limit > 0
    ensures GoodTable(LINKED_TABLE) && LandTable(LINKED_TABLE, limit) == Lands(TREE_3)
  {
    LinkedPaths();
    LinkedOrder();
    FirstRow(limit); SecondRow(limit); ThirdRow(limit);
    var rows := [FILE_D_F, LINK_A, LINK_A_B];
    assert rows[1..] == [LINK_A, LINK_A_B] && [LINK_A, LINK_A_B][1..] == [LINK_A_B] && [LINK_A_B][1..] == [];
    assert LandRows(TREE_3, [], limit) == Lands(TREE_3);
    assert LandRows(TREE_2, [LINK_A_B], limit) == Lands(TREE_3);
    assert LandRows(TREE_1, [LINK_A, LINK_A_B], limit) == Lands(TREE_3);
  }

  /** A table the index reader accepts, expanded into an empty place without any fault: the call is done
      and leaves a receipt for a segment that has no node of its own, since the link `a/b` was made
      through the link `a`. */
  lemma LinkBelowLinkFails(limit: nat, ix: Index, s: Snap, t: Snap, r: Outcome)
    requires limit > 0 && ix.table == LINKED_TABLE && Startable(s)
    requires GoodTable(ix.table) && CalmResult(limit, ix, s, t, r)
    ensures r.Done? && Certifies(t.nodes, ix)
    ensures LINK_A_B in ix.table && LINK_A_B.path !in t.nodes && !AllPresent(t.nodes, ix.table) && !Honest(t)
    ensures !NoLinkBelowLink(ix.table)
  {
    LinkedTable();
    LinkedLands(limit);
    NotItsOwn(ix);
    assert LINK_A_B in ix.table && !Present(t.nodes, LINK_A_B);
  }

  lemma NotItsOwn(ix: Index)
    ensures LINK_A_B.path !in Finished(TREE_3, ix)
  {
    LinkedNames();
    var p := ["a", "b"];
    assert p[0] == "a" && ["d", "b"][0] == "d" && ["d", "f"][0] == "d" && |p| == 2 && |["a"]| == 1 && |["d"]| == 1;
    assert COMPLETE[0] == ".complete" && |".complete"| == 9 && |"a"| == 1;
    assert |EXPANDING| == 1;
  }
}

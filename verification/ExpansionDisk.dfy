/**
The directory an egg is expanded into, changed one file operation at a time.  Every operation may
succeed, fail, or be the last one before a crash; the outcome is nobody's choice.
*/
module ExpansionDisk {
  import opened Expansion
  import opened ExpansionLanding

  datatype Status = Good | Bad | Crash

  /** What a landing without faults comes to, and what became of it. */
  ghost predicate Agrees(l: Landed, s: Status, nodes: Tree) {
    match l
    case Lands(t) => s.Good? && nodes == t
    case Stuck => s.Bad?
    case Strays => true
  }

  ghost predicate ThroughLink(nodes: Tree, p: Path) {
    exists n :: 0 < n <= |p| && IsLinkAt(nodes, p[..n])
  }

  /** No entry's last name is as long as `random`. */
  ghost predicate Unused(nodes: Tree, random: string) {
    forall q :: q in nodes && |q| > 0 ==> |q[|q| - 1]| < |random|
  }

  /** Something was put at `at`: elsewhere the tree lost nothing, gained no link, and nothing changed
      under a reserved name. */
  ghost predicate Landing(a: Tree, b: Tree, at: Path) {
    && TreeOk(b)
    && (forall q :: q in a && q != at ==> q in b && b[q] == a[q])
    && (forall q :: q in b && q !in a ==> |q| > 0 && q[0] !in RESERVED && (q == at || !b[q].Link?))
  }

  /** Only the two names of the progress file may differ, and neither is a directory or a link now
      unless it was before. */
  ghost predicate ProgressOnly(a: Tree, b: Tree) {
    && TreeOk(b)
    && (forall q :: q in a && q != EXPANDING && q != EXPANDING_TMP ==> q in b && b[q] == a[q])
    && (forall q :: q in b && q != EXPANDING && q != EXPANDING_TMP ==> q in a)
  }

  /** All links of the tree are links of the table's first part, or lie under a reserved name. */
  ghost predicate LinksAre(nodes: Tree, landed: seq<Segment>) {
    forall q :: q in nodes && nodes[q].Link? ==> |q| > 0 && (q[0] in RESERVED || Linked(landed, q))
  }

  ghost predicate Linked(landed: seq<Segment>, q: Path) {
    exists e :: e in landed && e.path == q && e.IsLink()
  }

  /** What landing one segment, with the progress note after it, may do when its way is not through a
      link: the segment appears, or is missed, and nothing else that counts changes. */
  ghost predicate LandsOn(a: Tree, b: Tree, e: Segment, good: bool) {
    exists mid :: Landing(a, mid, e.path) && (good ==> Present(mid, e)) && Noting(mid, b)
  }

  ghost predicate Noting(a: Tree, b: Tree) {
    ProgressOnly(a, b) && (EXPANDING in a ==> EXPANDING in b)
  }

  /** Through a link anything may come of it. */
  ghost predicate MayLand(a: Tree, b: Tree, e: Segment, good: bool) {
    TreeOk(b) && |e.path| > 0 && (ThroughLink(a, ParentOf(e.path)) || LandsOn(a, b, e, good))
  }

  /** Only the two names of the failure note may differ. */
  ghost predicate FailureNoted(a: Tree, b: Tree) {
    TreeOk(b) && b - {FAILED, FAILED_TMP} == a - {FAILED, FAILED_TMP}
  }

  const FAILED_TMP: Path := [".failed.tmp"]

  /** Content goes, markers stay. */
  ghost predicate Clearing(a: Tree, b: Tree) {
    && TreeOk(b) && b.Keys <= a.Keys && (forall q :: q in b ==> b[q] == a[q])
    && (forall q :: q in a && |q| > 0 && q[0] in MARKERS ==> q in b)
  }

  /** A root this call made is taken away again, which only works while it is empty. */
  ghost predicate RootGone(created: bool, s: Snap, t: Snap) {
    created && s == Snap(Directory, map[]) && t == Snap(Missing, map[])
  }

  class Disk {
    const calm: bool      // no operation fails
    const limit: nat      // how many links the system follows in one path
    var root: Root
    var nodes: Tree

    constructor (calm: bool, limit: nat, s: Snap)
      requires SnapOk(s)
      ensures Snapshot() == s && this.calm == calm && this.limit == limit
    {
      this.calm, this.limit, root, nodes := calm, limit, s.root, s.nodes;
    }

    ghost function Snapshot(): Snap
      reads this
    {
      Snap(root, nodes)
    }

    method Fault() returns (s: Status)
      ensures calm ==> s.Good?
    {
      s := *;
      if calm { s := Good; }
    }

    // ------------------------------------------------------------ directories

    /** os.MkdirAll for a path under the root.  It ends at a directory, is barred, or is led out of the
        tree by a link; `tame` as long as no link was followed. */
    method MakeDirs(p: Path) returns (s: Status, w: Walked, ghost tame: bool)
      requires TreeOk(nodes) && (|p| > 0 ==> p[0] !in RESERVED)
      modifies this`nodes
      ensures TreeOk(nodes) && (w.At? ==> IsPlace(nodes, w.dir)) && (s.Good? <==> !w.Barred?)
      ensures tame ==> Grown(old(nodes), nodes, p) && !w.Away? && (w.At? ==> w.dir == p)
      ensures !tame ==> ThroughLink(old(nodes), p)
      ensures calm ==> !s.Crash?
      ensures calm ==> w == Mkdirs(old(nodes), [], p, limit).1 && (w.At? ==> nodes == Mkdirs(old(nodes), [], p, limit).0)
    {
      var at, left, n := [], limit, 0;
      s, tame := Good, true;
      ghost var goal := Mkdirs(nodes, [], p, limit);
      assert p[..0] == [] && p[0..] == p;
      while n < |p|
        invariant n <= |p| && TreeOk(nodes) && IsPlace(nodes, at) && s.Good?
        invariant Walking(old(nodes), nodes, p, n, at, tame)
        invariant calm ==> goal == Mkdirs(nodes, at, p[n..], left)
      {
        s, w, tame := StepOn(p, n, at, left, old(nodes), tame);
        if !w.At? { return; }
        at, left, n := w.dir, w.left, n + 1;
      }
      assert p[n..] == [] && p[..n] == p;
      w := At(at, left);
    }

    method StepOn(p: Path, n: nat, at: Path, left: nat, ghost start: Tree, ghost kept: bool)
      returns (s: Status, w: Walked, ghost tame: bool)
      requires TreeOk(nodes) && IsPlace(nodes, at) && n < |p| && p[0] !in RESERVED && Walking(start, nodes, p, n, at, kept)
      modifies this`nodes
      ensures TreeOk(nodes) && (w.At? ==> IsPlace(nodes, w.dir)) && (s.Good? <==> !w.Barred?)
      ensures tame ==> Grown(start, nodes, p) && !w.Away?
      ensures !tame ==> ThroughLink(start, p)
      ensures w.At? ==> Walking(start, nodes, p, n + 1, w.dir, tame)
      ensures calm ==> !s.Crash?
      ensures calm ==>
        (Mkdirs(old(nodes), at, p[n..], left) == if w.At? then Mkdirs(nodes, w.dir, p[n + 1..], w.left) else (old(nodes), w))
    {
      ghost var before, q := nodes, at + [p[n]];
      tame := kept && !IsLinkAt(nodes, q);
      TailOf(p, n);
      PrefixNext(p, n);
      s, w := EnterDir(at, p[n], left);
      WalkedOn(start, before, nodes, p, n, q, kept, w);
      if calm { MadeOn(before, nodes, at, p[n..], left, w); }
    }

    /** One step of the walk: what is missing is made, what is there is entered, or bars the way. */
    method EnterDir(at: Path, c: string, left: nat) returns (s: Status, w: Walked)
      requires TreeOk(nodes) && IsPlace(nodes, at)
      modifies this`nodes
      ensures TreeOk(nodes) && (s.Good? <==> !w.Barred?)
      ensures nodes == old(nodes) || (at + [c] !in old(nodes) && nodes == old(nodes)[at + [c] := Dir])
      ensures w.At? ==> IsPlace(nodes, w.dir)
      ensures !IsLinkAt(old(nodes), at + [c]) ==> !w.Away? && (w.At? ==> w.dir == at + [c])
      ensures calm ==> !s.Crash?
      ensures calm && at + [c] !in old(nodes) ==> nodes == old(nodes)[at + [c] := Dir] && w == At(at + [c], left)
      ensures calm && at + [c] in old(nodes) ==> nodes == old(nodes) && w == Entered(old(nodes), at, c, left)
    {
      var q := at + [c];
      assert ParentOf(q) == at;
      s := Fault();
      if !s.Good? { return s, Barred; }
      if q !in nodes {
        DirMade(nodes, q);
        nodes := nodes[q := Dir];
        w := At(q, left);
      } else {
        FollowPlace(nodes, at, [c], left);
        w := Entered(nodes, at, c, left);
        if w.Barred? { s := Bad; }
      }
    }

    // ------------------------------------------------------------ landing one segment

    /** Removing a plain file or link; the caller ignores a failure. */
    method Cleanup(p: Path) returns (crashed: bool)
      requires p in nodes && !nodes[p].Dir?
      modifies this`nodes
      ensures nodes == old(nodes) || nodes == old(nodes) - {p}
      ensures calm ==> !crashed
    {
      var s := Fault();
      if s.Good? { nodes := nodes - {p}; }
      crashed := s.Crash?;
    }

    /** eggLandOne: write under a temporary name, compare with the table, then rename.  Short of success
        only the temporary may be left: no segment's name ever carries bytes the table does not fix. */
    method LandOne(at: Path, content: string, random: string) returns (s: Status)
      requires TreeOk(nodes) && at != [] && IsPlace(nodes, ParentOf(at))
      modifies this`nodes
      ensures TreeOk(nodes)
      ensures s.Good? ==> nodes == old(nodes)[at := File(Data(content))] && !IsDir(old(nodes), at)
      ensures !s.Good? ==> nodes == old(nodes) || LeftOver(old(nodes), nodes, TempPath(at, random))
      ensures calm ==> !s.Crash?
      ensures calm && TempPath(at, random) !in old(nodes) && !IsDir(old(nodes), at) ==> s.Good?
    {
      var tmp := TempPath(at, random);
      ghost var before := nodes;
      s := Fault();
      if !s.Good? { return; }
      if tmp in nodes { return Bad; }
      forall c ensures TreeOk(nodes[tmp := File(c)]) { NodeLands(nodes, tmp, File(c)); }
      s := WriteTemp(tmp, content);
      assert nodes - {tmp} == before;
      if s.Good? && at in nodes && nodes[at].Dir? { s := Bad; }
      if s.Good? { s := Fault(); }       // rename
      if s.Good? {
        NodeLands(before, at, nodes[tmp]);
        nodes := (nodes - {tmp})[at := nodes[tmp]];
      } else if s.Bad? {
        var crashed := Cleanup(tmp);
        if crashed { s := Crash; }
      }
    }

    /** Copy, hash, sync, set the mode: good only when the bytes are the table's. */
    method WriteTemp(tmp: Path, want: string) returns (s: Status)
      modifies this`nodes
      ensures tmp in nodes && nodes[tmp].File? && nodes == old(nodes)[tmp := nodes[tmp]]
      ensures s.Good? ==> nodes[tmp] == File(Data(want))
      ensures calm ==> s.Good?
    {
      nodes := nodes[tmp := File(Partial)];
      var got: string := *;
      if calm { got := want; }           // the egg still has the bytes its hashes name
      s := Fault();
      if s.Good? {
        nodes := nodes[tmp := File(Data(got))];
        s := if got == want then Good else Bad;
      }
      if s.Good? { s := Fault(); }
    }

    /** A random suffix; on a calm disk one that is not in use. */
    method Random() returns (random: string)
      ensures calm ==> Unused(nodes, random)
    {
      if !calm { random := *; return; }
      var longest: nat := 0;
      var rest := nodes.Keys;
      while rest != {}
        invariant rest <= nodes.Keys
        invariant forall q :: q in nodes && q !in rest && |q| > 0 ==> |q[|q| - 1]| < longest
      {
        var q :| q in rest;
        rest := rest - {q};
        if |q| > 0 && |q[|q| - 1]| >= longest { longest := |q[|q| - 1]| + 1; }
      }
      random := seq(longest, k => '0');
    }

    /** A file segment.  When a link leads its directory out of the tree nothing is known of where it
        lands. */
    method LandFile(e: Segment) returns (s: Status, ghost tame: bool)
      requires TreeOk(nodes) && |e.path| > 0 && e.path[0] !in RESERVED && !e.IsLink()
      modifies this`nodes
      ensures TreeOk(nodes)
      ensures tame ==> Landing(old(nodes), nodes, e.path) && (s.Good? ==> Present(nodes, e))
      ensures !tame ==> ThroughLink(old(nodes), ParentOf(e.path))
      ensures s.Good? ==> e.modeOk
      ensures calm ==> !s.Crash? && Agrees(LandRow(old(nodes), e, limit), s, nodes)
    {
      var w;
      s, w, tame := MakeDirs(ParentOf(e.path));
      ghost var made := nodes;
      if calm { RowOut(old(nodes), e, limit); }
      if tame && w.Barred? { GrownLands(old(nodes), made, ParentOf(e.path), e.path); }
      if w.Barred? { return; }
      if !e.modeOk {
        if tame { GrownLands(old(nodes), made, ParentOf(e.path), e.path); }
        return Bad, tame;
      }
      if w.Away? {
        s := Astray(e);
        return;
      }
      s := LandFileIn(w.dir, e);
      if calm { RowIn(old(nodes), made, w, e, limit, s, nodes); }
      if tame {
        WholePath(e.path);
        GrownAndLanded(old(nodes), made, nodes, e.path);
      }
    }

    method LandFileIn(dir: Path, e: Segment) returns (s: Status)
      requires TreeOk(nodes) && |e.path| > 0 && IsPlace(nodes, dir) && !e.IsLink()
      modifies this`nodes
      ensures TreeOk(nodes)
      ensures dir + [LastOf(e.path)] == e.path && e.path[0] !in RESERVED ==> Landing(old(nodes), nodes, e.path)
      ensures s.Good? ==> nodes == old(nodes)[dir + [LastOf(e.path)] := NodeOf(e)] && !IsDir(old(nodes), dir + [LastOf(e.path)])
      ensures calm ==> !s.Crash? && (s.Good? <==> !IsDir(old(nodes), dir + [LastOf(e.path)]))
    {
      ghost var made := nodes;
      var at := dir + [LastOf(e.path)];
      var random := Random();
      assert ParentOf(at) == dir;
      if Unused(nodes, random) { TempUnused(nodes, at, random); }
      s := LandOne(at, e.content, random);
      if at[0] !in RESERVED { OneLanded(made, nodes, at, TempPath(at, random), s); }
    }

    /** Beyond a link that leads out of the tree: refused, landed outside, or, if the way leads back in,
        anywhere in the tree. */
    method Astray(e: Segment) returns (s: Status)
      requires TreeOk(nodes) && |e.path| > 0
      modifies this`nodes
      ensures TreeOk(nodes) && (calm ==> !s.Crash?)
    {
      var inside: bool := *;
      var elsewhere: Path := *;
      if inside && IsPlace(nodes, elsewhere) {
        var at := elsewhere + [LastOf(e.path)];
        assert ParentOf(at) == elsewhere;
        if e.IsLink() {
          s := PlaceLink(at, e.target);
        } else {
          var random := Random();
          s := LandOne(at, e.content, random);
        }
      } else {
        s := Fault();
      }
    }

    /** Lstat, clear an old link, symlink; in a directory that is really there. */
    method PlaceLink(at: Path, target: string) returns (s: Status)
      requires TreeOk(nodes) && at != [] && IsPlace(nodes, ParentOf(at))
      modifies this`nodes
      ensures TreeOk(nodes)
      ensures at[0] !in RESERVED ==> Landing(old(nodes), nodes, at)
      ensures s.Good? ==> nodes == old(nodes)[at := Link(target)] && (at in old(nodes) ==> old(nodes)[at].Link?)
      ensures calm ==> !s.Crash?
      ensures calm && (at in old(nodes) ==> old(nodes)[at].Link?) ==> s.Good?
    {
      ghost var before := nodes;
      if !(at in nodes && nodes[at].Dir?) { PutLink(nodes, at, target); }
      if at in nodes {
        if !nodes[at].Link? { return Bad; }
        s := Fault();
        if !s.Good? { return; }
        nodes := nodes - {at};
      }
      s := Fault();
      if s.Good? {
        assert (before - {at})[at := Link(target)] == before[at := Link(target)];
        nodes := nodes[at := Link(target)];
      }
    }

    /** A link segment.  When an ancestor is itself a link the system follows it, and the segment lands
        where that leads. */
    method LandLink(e: Segment) returns (s: Status, ghost tame: bool)
      requires TreeOk(nodes) && |e.path| > 0 && e.path[0] !in RESERVED && e.IsLink()
      modifies this`nodes
      ensures TreeOk(nodes)
      ensures tame ==> Landing(old(nodes), nodes, e.path) && (s.Good? ==> Present(nodes, e))
      ensures !tame ==> ThroughLink(old(nodes), ParentOf(e.path))
      ensures calm ==> !s.Crash? && Agrees(LandRow(old(nodes), e, limit), s, nodes)
    {
      var w;
      s, w, tame := MakeDirs(ParentOf(e.path));
      ghost var made := nodes;
      if calm { RowOut(old(nodes), e, limit); }
      if tame && w.Barred? { GrownLands(old(nodes), made, ParentOf(e.path), e.path); }
      if w.Barred? { return; }
      if w.Away? {
        s := Astray(e);
        return;
      }
      s := LandLinkIn(w.dir, e);
      if calm { RowIn(old(nodes), made, w, e, limit, s, nodes); }
      if tame {
        WholePath(e.path);
        GrownAndLanded(old(nodes), made, nodes, e.path);
      }
    }

    method LandLinkIn(dir: Path, e: Segment) returns (s: Status)
      requires TreeOk(nodes) && |e.path| > 0 && IsPlace(nodes, dir) && e.IsLink()
      modifies this`nodes
      ensures TreeOk(nodes)
      ensures dir + [LastOf(e.path)] == e.path && e.path[0] !in RESERVED ==> Landing(old(nodes), nodes, e.path)
      ensures s.Good? ==> nodes == old(nodes)[dir + [LastOf(e.path)] := NodeOf(e)] && Fits(old(nodes), dir + [LastOf(e.path)], e)
      ensures calm ==> !s.Crash? && (s.Good? <==> Fits(old(nodes), dir + [LastOf(e.path)], e))
    {
      var at := dir + [LastOf(e.path)];
      assert ParentOf(at) == dir;
      s := PlaceLink(at, e.target);
    }

    // ------------------------------------------------------------ landing the whole table

    /** The progress file is rewritten under a temporary name; no failure of that counts. */
    method NoteProgress() returns (crashed: bool)
      requires TreeOk(nodes)
      modifies this`nodes
      ensures Noting(old(nodes), nodes)
      ensures forall q :: q in nodes && (q == EXPANDING || q == EXPANDING_TMP) ==>
        nodes[q].File? || (q in old(nodes) && nodes[q] == old(nodes)[q])
      ensures calm ==> !crashed
      ensures calm && TidyMarkers(old(nodes)) ==> nodes == Noted(old(nodes))
    {
      var s := Fault();
      ghost var before := nodes;
      assert EXPANDING[0] in RESERVED && EXPANDING_TMP[0] in RESERVED;
      if s.Good? && (EXPANDING_TMP !in nodes || nodes[EXPANDING_TMP].File?) {
        PutFile(nodes, EXPANDING_TMP, Progress);
        nodes := nodes[EXPANDING_TMP := File(Progress)];
        s := Rename(EXPANDING_TMP, EXPANDING, Progress);
        if s.Good? { NotedIs(before); }
      }
      crashed := s.Crash?;
    }

    method Split(table: seq<Segment>) returns (files: seq<Segment>, links: seq<Segment>)
      ensures files == Files(table) && links == Links(table)
    {
      files, links := [], [];
      for k := 0 to |table|
        invariant files == Files(table[..k]) && links == Links(table[..k])
      {
        assert table[..k + 1][..k] == table[..k];
        if table[k].IsLink() { links := links + [table[k]]; } else { files := files + [table[k]]; }
      }
      assert table[..|table|] == table;
    }

    method LandSegment(e: Segment, ghost landing: seq<Segment>) returns (s: Status, ghost tame: bool)
      requires TreeOk(nodes) && Rows(landing + [e])
      modifies this`nodes
      ensures TreeOk(nodes) && |e.path| > 0
      ensures if tame then Landing(old(nodes), nodes, e.path) && (s.Good? ==> Present(nodes, e))
              else ThroughLink(old(nodes), ParentOf(e.path))
      ensures Stage(old(nodes), landing) && tame ==> COMPLETE !in nodes && (s.Good? ==> Stage(nodes, landing + [e]))
      ensures Stage(old(nodes), landing) && !tame ==> exists l :: l in landing && l.IsLink() && ProperPrefix(l.path, e.path)
      ensures TidyMarkers(old(nodes)) && tame ==> TidyMarkers(nodes)
      ensures s.Good? ==> e.IsLink() || e.modeOk
      ensures calm ==> !s.Crash? && Agrees(LandRow(old(nodes), e, limit), s, nodes)
    {
      ghost var before := nodes;
      assert e in landing + [e];
      if e.IsLink() { s, tame := LandLink(e); } else { s, tame := LandFile(e); }
      if Stage(before, landing) { RowStep(before, nodes, landing, e, s, tame); }
      if tame { TidyLanding(before, nodes, e.path); }
    }

    /** One segment and the progress note after it. */
    method LandNext(e: Segment, ghost landing: seq<Segment>) returns (s: Status, ghost tame: bool)
      requires TreeOk(nodes) && Rows(landing + [e])
      modifies this`nodes
      ensures TreeOk(nodes) && MayLand(old(nodes), nodes, e, s.Good?)
      ensures Stage(old(nodes), landing) && tame ==> COMPLETE !in nodes && (s.Good? ==> Stage(nodes, landing + [e]))
      ensures Stage(old(nodes), landing) && !tame ==> exists l :: l in landing && l.IsLink() && ProperPrefix(l.path, e.path)
      ensures TidyMarkers(old(nodes)) && tame ==> TidyMarkers(nodes)
      ensures s.Good? ==> e.IsLink() || e.modeOk
      ensures calm ==> !s.Crash?
      ensures calm && TidyMarkers(old(nodes)) ==> Agrees(NotedRow(old(nodes), e, limit), s, nodes)
    {
      ghost var before := nodes;
      s, tame := LandSegment(e, landing);
      ghost var landed := nodes;
      if tame { assert Noting(nodes, nodes); }
      if !s.Good? { return; }
      var crashed := NoteProgress();
      TidyProgress(landed, nodes);
      if Stage(landed, landing + [e]) { StageProgress(landed, nodes, landing + [e]); }
      if crashed { s := Crash; }
    }

    /** The rows of one kind in turn, after `done`. */
    method LandKind(rows: seq<Segment>, ghost done: seq<Segment>) returns (s: Status, ghost tame: bool)
      requires TreeOk(nodes) && Rows(done + rows)
      modifies this`nodes
      ensures TreeOk(nodes)
      ensures Stage(old(nodes), done) && tame ==> COMPLETE !in nodes && (s.Good? ==> Stage(nodes, done + rows))
      ensures Stage(old(nodes), done) && !tame ==> Crossed(done + rows, rows)
      ensures TidyMarkers(old(nodes)) && tame ==> TidyMarkers(nodes)
      ensures s.Good? ==> ModesOk(rows)
      ensures calm ==> !s.Crash?
      ensures PathsGiven(rows) && (calm && TidyMarkers(old(nodes)) ==> Agrees(LandRows(old(nodes), rows, limit), s, nodes))
    {
      s, tame := Good, true;
      RowsGiven(done, rows);
      assert done + rows[..0] == done && rows[0..] == rows;
      for k := 0 to |rows|
        invariant TreeOk(nodes) && s.Good?
        invariant Stage(old(nodes), done) && tame ==> Stage(nodes, done + rows[..k])
        invariant Stage(old(nodes), done) && !tame ==> Crossed(done + rows, rows)
        invariant TidyMarkers(old(nodes)) && tame ==> TidyMarkers(nodes)
        invariant ModesOk(rows[..k])
        invariant calm && TidyMarkers(old(nodes)) ==> OnCourse(LandRows(old(nodes), rows, limit), nodes, rows[k..], limit)
      {
        ghost var kept, before := tame, nodes;
        ghost var landing := done + rows[..k];
        RowsUpTo(done, rows, k);
        s, tame := LandNext(rows[k], landing);
        if Stage(before, landing) && !tame { CrossedHere(done, rows, k); }
        if calm && OnCourse(LandRows(old(nodes), rows, limit), before, rows[k..], limit) && TidyMarkers(before) {
          CourseNext(LandRows(old(nodes), rows, limit), before, rows[k..], s, nodes, limit);
        }
        tame := tame && kept;
        if !s.Good? { return; }
        assert rows[k..][1..] == rows[k + 1..];
      }
      assert rows[..|rows|] == rows && rows[|rows|..] == [];
    }

    /** Files first, links after them, a progress note after each.  From a fresh tree a good end means
        that every segment is present, unless some landing went through a link. */
    method LandAll(table: seq<Segment>) returns (s: Status, ghost tame: bool)
      requires TreeOk(nodes) && GoodTable(table)
      modifies this`nodes
      ensures TreeOk(nodes)
      ensures Stage(old(nodes), []) && tame ==> COMPLETE !in nodes && (s.Good? ==> AllPresent(nodes, table))
      ensures Stage(old(nodes), []) && !tame ==> !NoLinkBelowLink(table)
      ensures TidyMarkers(old(nodes)) && tame ==> TidyMarkers(nodes)
      ensures s.Good? ==> ModesOk(table)
      ensures calm ==> !s.Crash?
      ensures PathsGiven(Files(table) + Links(table))
      ensures calm && TidyMarkers(old(nodes)) ==> Agrees(LandRows(old(nodes), Files(table) + Links(table), limit), s, nodes)
    {
      var files, links := Split(table);
      ghost var start, tameFiles := nodes, true;
      TableSplit(table);
      s, tameFiles := LandKind(files, []);
      FilesNeverCross(files);
      tame := tameFiles;
      if !s.Good? {
        if calm && TidyMarkers(start) { AllStopped(start, files, links, limit, s, nodes); }
        return;
      }
      ghost var landed := nodes;
      s, tame := LandKind(links, files);
      if calm && TidyMarkers(start) { AllJoined(start, files, links, limit, landed, s, nodes); }
      if Crossed(files + links, links) { CrossedLinks(table, files, links); }
      if s.Good? { AllLanded(table, nodes); }
      tame := tame && tameFiles;
    }

    // ------------------------------------------------------------ markers

    /** eggWriteJSONAtomic: a marker appears whole or not at all; a failed rename leaves the temporary. */
    method WriteAtomic(p: Path, tmp: Path, content: Content) returns (s: Status)
      requires TreeOk(nodes) && |p| == 1 && |tmp| == 1 && p != tmp
      modifies this`nodes
      ensures TreeOk(nodes)
      ensures s.Good? ==> nodes == (old(nodes) - {tmp})[p := File(content)] && !IsDir(old(nodes), tmp)
      ensures !s.Good? ==> nodes - {tmp} == old(nodes) - {tmp}
      ensures calm ==> !s.Crash?
      ensures calm && (tmp in old(nodes) ==> old(nodes)[tmp].File?) && !IsDir(old(nodes), p) ==> s.Good?
    {
      s := FillTemp(tmp, content);
      if s.Good? { s := Rename(tmp, p, content); }
    }

    method Rename(tmp: Path, p: Path, content: Content) returns (s: Status)
      requires TreeOk(nodes) && |p| == 1 && |tmp| == 1 && p != tmp && tmp in nodes && nodes[tmp] == File(content)
      modifies this`nodes
      ensures TreeOk(nodes)
      ensures nodes == if s.Good? then (old(nodes) - {tmp})[p := File(content)] else old(nodes)
      ensures calm && !IsDir(old(nodes), p) ==> s.Good?
      ensures calm ==> !s.Crash?
    {
      s := Fault();
      if s.Good? && p in nodes && nodes[p].Dir? { s := Bad; }
      if !s.Good? { return; }
      PutLink(nodes, tmp, "");
      PutFile(nodes - {tmp}, p, content);
      nodes := (nodes - {tmp})[p := File(content)];
    }

    method FillTemp(tmp: Path, content: Content) returns (s: Status)
      requires TreeOk(nodes) && |tmp| == 1
      modifies this`nodes
      ensures TreeOk(nodes)
      ensures s.Good? ==> nodes == old(nodes)[tmp := File(content)] && !IsDir(old(nodes), tmp)
      ensures !s.Good? ==> nodes - {tmp} == old(nodes) - {tmp}
      ensures calm ==> !s.Crash?
      ensures calm && (tmp in old(nodes) ==> old(nodes)[tmp].File?) ==> s.Good?
    {
      s := Fault();
      if !s.Good? { return; }
      if tmp in nodes && !nodes[tmp].File? { return Bad; }
      ghost var before := nodes;
      PutFile(nodes, tmp, Partial);
      PutFile(nodes, tmp, content);
      AllButOne(before, tmp, File(Partial));
      nodes := nodes[tmp := File(Partial)];
      s := Fault();
      if s.Good? {
        nodes := nodes[tmp := File(content)];
      } else if s.Bad? {
        var crashed := Cleanup(tmp);
        if crashed { s := Crash; }
      }
    }

    /** os.RemoveAll of one entry of the root; when it fails or crashes, part of it may be gone. */
    method RemoveTop(name: string) returns (s: Status)
      requires TreeOk(nodes)
      modifies this`nodes
      ensures TreeOk(nodes) && nodes.Keys <= old(nodes).Keys && forall q :: q in nodes ==> nodes[q] == old(nodes)[q]
      ensures forall q :: q in old(nodes) && q[0] != name ==> q in nodes
      ensures s.Good? ==> forall q :: q in nodes ==> q[0] != name
      ensures calm ==> s.Good?
    {
      s := Fault();
      var depth: nat := 0;
      if !s.Good? { depth := *; }
      CutBelow(nodes, name, depth);
      nodes := Cut(nodes, name, depth);
    }

    /** os.Remove of a marker: not there counts as removed, a directory in use does not. */
    method RemoveMarker(p: Path) returns (s: Status)
      requires TreeOk(nodes) && |p| == 1
      modifies this`nodes
      ensures TreeOk(nodes) && nodes.Keys <= old(nodes).Keys && forall q :: q in nodes ==> nodes[q] == old(nodes)[q]
      ensures !s.Good? ==> nodes == old(nodes)
      ensures s.Good? ==> nodes == old(nodes) - {p} && forall q :: q in nodes ==> q[0] != p[0]
      ensures calm ==> !s.Crash?
      ensures calm && (forall q :: q in old(nodes) ==> |q| == 1) ==> s.Good?
      ensures calm && (p in old(nodes) ==> old(nodes)[p].File?) ==> s.Good?
    {
      s := Fault();
      if !s.Good? { return; }
      NothingBelowFile(nodes, p);
      if p in nodes && exists q <- nodes.Keys :: |q| > 1 && q[0] == p[0] { return Bad; }
      RemovedMarker(nodes, p);
      nodes := nodes - {p};
    }

    // ------------------------------------------------------------ rollback

    /** eggRollback: everything but markers goes, then the three markers, then the root itself if this
        call made it; a root that stays gets a failure note. */
    method Rollback(created: bool) returns (s: Status)
      requires TreeOk(nodes) && root.Directory?
      modifies this`nodes, this`root
      ensures SnapOk(Snapshot()) && !root.Blocked? && (root.Missing? ==> created)
      ensures COMPLETE !in old(nodes) ==> COMPLETE !in nodes
      ensures s.Good? ==> root.Missing? || OnlyFailed(Snapshot())
      ensures calm ==> !s.Crash?
      ensures calm && TidyMarkers(old(nodes)) ==> s.Good?
    {
      var failed;
      s, failed := RemoveContent();
      if s.Crash? { return; }
      ghost var marked := nodes;
      s := RemoveMarkers();
      if s.Crash? { return; }
      failed := failed || s.Bad?;
      if !failed && TidyMarkers(old(nodes)) { NothingLeft(old(nodes), marked, nodes); }
      s := Leave(created, failed);
    }

    /** The end of a rollback: a root this call made goes if it is empty; one that stays gets a note. */
    method Leave(created: bool, failed: bool) returns (s: Status)
      requires SnapOk(Snapshot())
      requires root.Directory? && !failed ==> forall q :: q in nodes ==> q[0] == ".failed"
      modifies this`nodes, this`root
      ensures SnapOk(Snapshot())
      ensures RootGone(created, old(Snapshot()), Snapshot()) || (root == old(root) && FailureNoted(old(nodes), nodes))
      ensures COMPLETE !in old(nodes) ==> COMPLETE !in nodes
      ensures s.Good? ==> root.Missing? || OnlyFailed(Snapshot())
      ensures calm ==> !s.Crash?
      ensures calm && !failed && old(Snapshot()) == Snap(Directory, map[]) ==> s.Good?
    {
      if created {
        s := Fault();
        if s.Crash? { return; }
        if s.Good? && root.Directory? && nodes == map[] {
          root := Missing;
          return if failed then Bad else Good;
        }
      }
      if !root.Directory? { return Bad; }
      ghost var before := nodes;
      s := NoteFailure(failed);
      NoteIsNoReceipt(before, nodes);
    }

    method NoteFailure(failed: bool) returns (s: Status)
      requires TreeOk(nodes) && root.Directory?
      requires !failed ==> forall q :: q in nodes ==> q[0] == ".failed"
      modifies this`nodes
      ensures FailureNoted(old(nodes), nodes)
      ensures s.Good? ==> OnlyFailed(Snapshot())
      ensures calm ==> !s.Crash?
      ensures calm && !failed && old(nodes) == map[] ==> s.Good?
    {
      ghost var before := nodes;
      s := WriteAtomic(FAILED, FAILED_TMP, Failure);
      NoteOnly(before, nodes);
      if s.Good? && !failed { OnlyNote(before, nodes); }
      if s.Good? && failed { s := Bad; }
    }

    method RemoveContent() returns (s: Status, failed: bool)
      requires TreeOk(nodes)
      modifies this`nodes
      ensures Clearing(old(nodes), nodes)
      ensures !s.Crash? && !failed ==> forall q :: q in nodes ==> q[0] in MARKERS
      ensures calm ==> !s.Crash? && !failed
    {
      s := Fault();
      failed := s.Bad?;
      if !s.Good? { return; }
      var names := set p | p in nodes :: p[0];
      while names != {}
        invariant Clearing(old(nodes), nodes) && !s.Crash?
        invariant !failed ==> forall q :: q in nodes ==> q[0] in names || q[0] in MARKERS
        invariant calm ==> !failed
      {
        var name :| name in names;
        names := names - {name};
        if name !in MARKERS {
          s := RemoveTop(name);
          if s.Crash? { return; }
          failed := failed || s.Bad?;
        }
      }
    }

    method RemoveMarkers() returns (s: Status)
      requires TreeOk(nodes)
      modifies this`nodes
      ensures TreeOk(nodes) && nodes.Keys <= old(nodes).Keys
      ensures s.Good? ==> forall q :: q in nodes ==> q[0] !in {".expanding.tmp", ".expanding", ".complete"}
      ensures calm ==> !s.Crash?
      ensures calm && (forall q :: q in old(nodes) ==> |q| == 1) ==> s.Good?
    {
      s := RemoveMarker(EXPANDING_TMP);
      if s.Crash? { return; }
      var failed := s.Bad?;
      s := RemoveMarker(EXPANDING);
      if s.Crash? { return; }
      failed := failed || s.Bad?;
      s := RemoveMarker(COMPLETE);
      if failed && s.Good? { s := Bad; }
    }

    // ------------------------------------------------------------ before the first byte

    /** eggPrepareDir. */
    method PrepareDir() returns (s: Status, created: bool)
      requires SnapOk(Snapshot())
      modifies this`root, this`nodes
      ensures SnapOk(Snapshot()) && CallRefused(old(Snapshot()), Snapshot())
      ensures calm ==> !s.Crash?
      ensures old(root).Blocked? ==> !s.Good? && Snapshot() == old(Snapshot())
      ensures old(root).Directory? && Occupied(old(nodes)) ==> Snapshot() == old(Snapshot())
      ensures calm && old(root).Directory? && Occupied(old(nodes)) ==> (s.Good? <==> COMPLETE in nodes)
      ensures s.Good? ==> root.Directory? && (created <==> old(root).Missing?)
      ensures s.Good? ==> (COMPLETE in nodes && nodes == old(nodes)) || forall q :: q in nodes ==> q[0] in MARKERS
      ensures calm && Startable(old(Snapshot())) ==> s.Good? && nodes == map[]
    {
      created := false;
      s := Fault();
      if !s.Good? { return; }
      match root {
        case Missing =>
          s := Fault();
          if s.Good? { root, created := Directory, true; }
          return;
        case Blocked =>
          s := Bad;
          return;
        case Directory =>
      }
      s := Fault();
      if !s.Good? { return; }
      if forall p <- nodes.Keys :: p[0] in MARKERS {
        assert !Occupied(nodes);
        s := RemoveMarker(FAILED);
      } else {
        var p :| p in nodes && p[0] !in MARKERS;
        assert Occupied(nodes);
        if COMPLETE !in nodes { s := Bad; }
      }
    }

    /** eggCheckComplete: the receipt of this very egg is found, or there is none, or it is refused. */
    method CheckComplete(ix: Index) returns (s: Status, found: bool)
      ensures s.Good? && Plain(nodes) && found ==> Certifies(nodes, ix)
      ensures s.Good? && Plain(nodes) && !found ==> COMPLETE !in nodes
      ensures calm && COMPLETE !in nodes ==> s.Good? && !found
      ensures calm && Plain(nodes) ==> !s.Crash?
      ensures calm && Plain(nodes) && COMPLETE in nodes ==> (s.Good? <==> Certifies(nodes, ix)) && (s.Good? ==> found)
    {
      found := false;
      s := Fault();
      if !s.Good? || COMPLETE !in nodes { return; }
      match nodes[COMPLETE] {
        case Dir => s := Bad;
        case File(Completed(r)) =>
          found := r.version == RECEIPT_VERSION && r.gen == ix.gen && r.uuid == ix.uuid && r.table == ix.table
            && r.bytes == ix.bytes;
          if !found { s := Bad; }
        case File(_) => s := Bad;
        case Link(_) =>                  // the read follows it: anything may come of that
          found := *;
          s := *;
      }
    }

    /** The lock is a file that must not be there yet; it doubles as the progress file. */
    method Lock(created: bool) returns (s: Status)
      requires SnapOk(Snapshot())
      modifies this`root, this`nodes
      ensures SnapOk(Snapshot())
      ensures !s.Good? ==> Snapshot() == old(Snapshot()) || RootGone(created, old(Snapshot()), Snapshot())
      ensures s.Good? ==> root.Directory? && old(root).Directory? && EXPANDING !in old(nodes)
      ensures s.Good? ==> nodes == old(nodes)[EXPANDING := File(Progress)] || nodes == old(nodes)[EXPANDING := File(Partial)]
      ensures calm ==> !s.Crash?
      ensures calm && old(Snapshot()) == Snap(Directory, map[]) ==> s.Good? && nodes == LOCKED
    {
      s := Fault();
      if s.Crash? { return; }
      if s.Bad? || !root.Directory? || EXPANDING in nodes {
        if created {
          s := Fault();
          if s.Crash? { return; }
          if s.Good? && root.Directory? && nodes == map[] { root := Missing; }
        }
        return Bad;
      }
      PutFile(nodes, EXPANDING, Partial);
      PutFile(nodes, EXPANDING, Progress);
      var written: bool := *;
      if calm { written := true; }
      nodes := nodes[EXPANDING := File(if written then Progress else Partial)];
    }

    // ------------------------------------------------------------ the call

    /** ExpandEggWithProgress.  Whatever succeeds, fails or is cut short, the tree it leaves keeps every
        promise of CallResult; on a disk without faults it is the one CalmResult names. */
    method Expand(ix: Index) returns (r: Outcome)
      requires SnapOk(Snapshot()) && GoodTable(ix.table)
      modifies this
      ensures CallResult(ix, old(Snapshot()), Snapshot(), r)
      ensures calm ==> CalmResult(limit, ix, old(Snapshot()), Snapshot(), r)
    {
      ghost var start := Snapshot();
      var created;
      r, created := Enter(ix);
      if r.Done? {
        LockedExpected(ix.table);
        r := Fill(ix, created);
        if Startable(start) && Landable(ix.table) { LandableLands(ix.table, limit); }
      }
    }

    /** Everything before the first byte: refused, skipped, or (Done here) the lock is taken. */
    method Enter(ix: Index) returns (r: Outcome, created: bool)
      requires SnapOk(Snapshot())
      modifies this
      ensures SnapOk(Snapshot()) && !r.Failed?
      ensures !r.Done? ==> CallResult(ix, old(Snapshot()), Snapshot(), r)
      ensures r.Done? ==> root.Directory? && !Settled(old(Snapshot())) && (created ==> old(root).Missing?)
      ensures r.Done? ==> EXPANDING !in old(nodes)
      ensures r.Done? && Plain(old(nodes)) ==> Stage(nodes, [])
      ensures calm && !r.Done? ==> CalmEntry(ix, old(Snapshot()), Snapshot(), r)
      ensures calm && r.Done? ==> old(root) != Blocked && (Plain(old(nodes)) ==> !Occupied(old(nodes)))
      ensures calm && Startable(old(Snapshot())) ==> r.Done? && Stage(nodes, []) && nodes == LOCKED
    {
      ghost var start := Snapshot();
      var s;
      s, created := PrepareDir();
      RefusedKeeps(ix, start, Snapshot());
      if !s.Good? { return if s.Crash? then Crashed else Refused, created; }
      var found;
      s, found := CheckComplete(ix);
      if !s.Good? { return if s.Crash? then Crashed else Refused, created; }
      if found { return Skipped, created; }
      s := LockFresh(ix, created, start);
      r := if s.Good? then Done else if s.Crash? then Crashed else Refused;
    }

    method LockFresh(ix: Index, created: bool, ghost start: Snap) returns (s: Status)
      requires SnapOk(start) && SnapOk(Snapshot()) && root.Directory? && CallRefused(start, Snapshot())
      requires created <==> start.root.Missing?
      requires COMPLETE !in nodes ==> forall q :: q in nodes ==> q[0] in MARKERS
      modifies this
      ensures SnapOk(Snapshot())
      ensures !s.Good? ==> CallRefused(start, Snapshot()) && CallKeeps(ix, start, Snapshot())
      ensures s.Good? ==> root.Directory? && EXPANDING !in old(nodes)
      ensures s.Good? && COMPLETE !in old(nodes) ==> Stage(nodes, [])
      ensures calm ==> !s.Crash?
      ensures calm && old(nodes) == map[] ==> s.Good? && nodes == LOCKED
    {
      ghost var unlocked := nodes;
      if COMPLETE !in nodes { FreshStage(nodes); }
      s := Lock(created);
      if s.Good? {
        if COMPLETE !in unlocked { StageProgress(unlocked, nodes, []); }
      } else {
        RefusedKeeps(ix, start, Snapshot());
      }
    }

    /** The writing part of a call, from the lock on. */
    method Fill(ix: Index, created: bool) returns (r: Outcome)
      requires SnapOk(Snapshot()) && root.Directory? && GoodTable(ix.table)
      modifies this
      ensures SnapOk(Snapshot()) && (r.Done? || r.Failed? || r.Crashed?)
      ensures Stage(old(nodes), []) && NoLinkBelowLink(ix.table) ==> Honest(Snapshot())
      ensures r.Done? ==> root.Directory? && Certifies(nodes, ix)
      ensures r.Done? && Stage(old(nodes), []) ==> (AllPresent(nodes, ix.table) <==> NoLinkBelowLink(ix.table))
      ensures r.Failed? && r.clean ==> (created && Snapshot() == Snap(Missing, map[])) || OnlyFailed(Snapshot())
      ensures r.Done? && Stage(old(nodes), []) && NoLinkBelowLink(ix.table) ==> Landable(ix.table)
      ensures PathsGiven(Files(ix.table) + Links(ix.table))
      ensures calm && Stage(old(nodes), []) && TidyMarkers(old(nodes)) ==>
        CalmFill(LandRows(old(nodes), Files(ix.table) + Links(ix.table), limit), ix, r, nodes)
      ensures calm && Stage(old(nodes), []) && TidyMarkers(old(nodes)) && NoLinkBelowLink(ix.table) ==> r.Done? || r == Failed(true)
    {
      var s;
      ghost var tame;
      ghost var start := nodes;
      s, tame := LandAll(ix.table);
      ghost var whole := LandRows(start, Files(ix.table) + Links(ix.table), limit);
      if TidyMarkers(start) { RowsTidy(start, Files(ix.table) + Links(ix.table), limit); }
      if s.Good? { s := Fault(); }       // the hash of the whole egg
      if s.Good? {
        s := Finish(ix);
        if s.Good? {
          PresentNoLinkBelow(nodes, ix.table);
          PresentLandable(nodes, ix.table);
          return Done;
        }
      }
      if s.Crash? { return Crashed; }
      s := Rollback(created);
      r := if s.Crash? then Crashed else Failed(s.Good?);
    }

    /** The receipt, and after it the lock; whether the lock could be removed makes no difference. */
    method Finish(ix: Index) returns (s: Status)
      requires SnapOk(Snapshot()) && root.Directory? && GoodTable(ix.table)
      modifies this`nodes
      ensures TreeOk(nodes)
      ensures s.Good? ==> Certifies(nodes, ix)
      ensures COMPLETE in nodes && COMPLETE !in old(nodes) ==>
        Certifies(nodes, ix)
      ensures s.Bad? && COMPLETE !in old(nodes) ==> COMPLETE !in nodes
      ensures AllPresent(old(nodes), ix.table) ==> AllPresent(nodes, ix.table)
      ensures calm && TidyMarkers(old(nodes)) ==> s.Good? && nodes == Finished(old(nodes), ix)
    {
      ghost var landed := nodes;
      if TidyMarkers(landed) { NoReceiptYet(landed); }
      var tmp := [".complete.tmp"];
      assert COMPLETE[0] != tmp[0];
      s := WriteAtomic(COMPLETE, tmp, Completed(ReceiptOf(ix)));
      ReceiptWritten(landed, nodes, tmp, ix, s);
      if !s.Good? { return; }
      ghost var written := nodes;
      s := RemoveMarker(EXPANDING);
      LockGone(written, nodes, ix.table);
      if s.Good? && TidyMarkers(landed) { ReceiptOnly(landed, written, nodes, ix); }
      if s.Bad? { s := Good; }
    }
  }

  /** One such run: the table with a link below a link, on a disk without faults, into a place that is
      not there yet, is expanded and certified although a segment has no node of its own. */
  method ExpandLinked(ix: Index, limit: nat) returns (r: Outcome, nodes: Tree)
    requires ix.table == LINKED_TABLE && limit > 0
    ensures r.Done? && Certifies(nodes, ix)
    ensures exists e :: e in ix.table && e.path !in nodes
  {
    LinkedPaths();
    var start := Snap(Missing, map[]);
    var disk := new Disk(true, limit, start);
    r := disk.Expand(ix);
    LinkBelowLinkFails(limit, ix, start, disk.Snapshot(), r);
    nodes := disk.nodes;
  }

  /** Refusing keeps an honest receipt honest. */
  lemma RefusedKeeps(ix: Index, s: Snap, t: Snap)
    requires CallRefused(s, t)
    ensures CallKeeps(ix, s, t)
  {
    if Honest(s) && HasReceipt(s.nodes) && t.nodes == s.nodes - {FAILED} {
      var table := s.nodes[COMPLETE].content.receipt.table;
      forall e | e in table ensures Present(t.nodes, e) { assert Present(s.nodes, e); }
    }
  }

  lemma FreshStage(nodes: Tree)
    requires TreeOk(nodes) && COMPLETE !in nodes && forall q :: q in nodes ==> q[0] in MARKERS
    ensures Stage(nodes, [])
  {
  }

  lemma ReceiptWritten(a: Tree, b: Tree, tmp: Path, ix: Index, s: Status)
    requires GoodTable(ix.table) && tmp == [".complete.tmp"]
    requires s.Good? ==> b == (a - {tmp})[COMPLETE := File(Completed(ReceiptOf(ix)))]
    requires !s.Good? ==> b - {tmp} == a - {tmp}
    ensures s.Good? ==> Certifies(b, ix)
    ensures !s.Good? ==> (COMPLETE in a <==> COMPLETE in b)
    ensures AllPresent(a, ix.table) ==> AllPresent(b, ix.table)
  {
    assert COMPLETE[0] != tmp[0];
    if AllPresent(a, ix.table) {
      forall e | e in ix.table ensures Present(b, e) {
        assert Present(a, e) && e.path[0] !in RESERVED;
        assert e.path in a - {tmp} && (!s.Good? ==> e.path in b - {tmp});
      }
    }
    if !s.Good? { assert COMPLETE in a - {tmp} <==> COMPLETE in b - {tmp}; }
  }

  lemma LockGone(a: Tree, b: Tree, table: seq<Segment>)
    requires GoodTable(table) && (b == a || b == a - {EXPANDING})
    ensures AllPresent(a, table) ==> AllPresent(b, table)
    ensures HasReceipt(a) ==> HasReceipt(b) && b[COMPLETE] == a[COMPLETE]
  {
    assert COMPLETE[0] != EXPANDING[0];
    if AllPresent(a, table) {
      forall e | e in table ensures Present(b, e) { assert Present(a, e) && e.path[0] !in RESERVED; }
    }
  }

  /** A segment below a link cannot be a node of its own. */
  lemma PresentNoLinkBelow(nodes: Tree, table: seq<Segment>)
    requires TreeOk(nodes) && GoodTable(table)
    ensures AllPresent(nodes, table) ==> NoLinkBelowLink(table)
  {
    if AllPresent(nodes, table) {
      forall e, f | e in table && f in table && e.IsLink() && f.IsLink() ensures !ProperPrefix(e.path, f.path) {
        assert Present(nodes, e) && Present(nodes, f);
        if ProperPrefix(e.path, f.path) {
          AncestorsAreDirs(nodes, f.path, |e.path|);
        }
      }
    }
  }

  /** With everything else gone, the failure note is all there is. */
  lemma OnlyNote(a: Tree, b: Tree)
    requires TreeOk(b) && forall q :: q in a && |q| > 0 ==> q[0] == ".failed"
    requires TreeOk(a) && b == (a - {[".failed.tmp"]})[FAILED := File(Failure)]
    ensures b == map[FAILED := File(Failure)]
  {
    forall q | q in b ensures q == FAILED {
      if |q| > 1 { TopIsThere(b, q); } else { assert q == [q[0]]; }
    }
  }

  lemma NoteOnly(a: Tree, b: Tree)
    requires b == (a - {FAILED_TMP})[FAILED := File(Failure)] || b - {FAILED_TMP} == a - {FAILED_TMP}
    ensures b - {FAILED, FAILED_TMP} == a - {FAILED, FAILED_TMP}
  {
    if b - {FAILED_TMP} == a - {FAILED_TMP} {
      assert b - {FAILED, FAILED_TMP} == b - {FAILED_TMP} - {FAILED};
      assert a - {FAILED, FAILED_TMP} == a - {FAILED_TMP} - {FAILED};
    }
  }

  lemma NoteIsNoReceipt(a: Tree, b: Tree)
    requires FailureNoted(a, b)
    ensures COMPLETE in b ==> COMPLETE in a
  {
    assert COMPLETE[0] != FAILED_TMP[0] && COMPLETE[0] != FAILED[0];
    assert COMPLETE in b ==> COMPLETE in b - {FAILED, FAILED_TMP};
  }

  function Cut(nodes: Tree, name: string, depth: nat): Tree {
    map q | q in nodes && !(|q| > depth && |q| > 0 && q[0] == name) :: nodes[q]
  }

  lemma CutBelow(nodes: Tree, name: string, depth: nat)
    requires TreeOk(nodes)
    ensures TreeOk(Cut(nodes, name, depth))
  {
    var b := Cut(nodes, name, depth);
    forall q | q in b && |q| > 1 ensures IsDir(b, q[..|q| - 1]) {
      assert IsDir(nodes, q[..|q| - 1]);
    }
  }

  lemma TopIsThere(nodes: Tree, q: Path)
    requires TreeOk(nodes) && q in nodes && |q| > 1
    ensures IsDir(nodes, [q[0]])
  {
    AncestorsAreDirs(nodes, q, 1);
    assert q[..1] == [q[0]];
  }

  lemma RemovedMarker(nodes: Tree, p: Path)
    requires TreeOk(nodes) && |p| == 1
    requires p in nodes ==> forall q :: q in nodes && |q| > 1 ==> q[0] != p[0]
    ensures TreeOk(nodes - {p}) && forall q :: q in nodes - {p} ==> q[0] != p[0]
  {
    var b := nodes - {p};
    assert p == [p[0]];
    forall q | q in b ensures q[0] != p[0] {
      if |q| > 1 { TopIsThere(nodes, q); } else { assert q == [q[0]]; }
    }
    forall q | q in b && |q| > 1 ensures IsDir(b, q[..|q| - 1]) {
      assert IsDir(nodes, q[..|q| - 1]);
      assert q[..|q| - 1][0] == q[0];
    }
  }

  /** Part of the table has landed: those segments are present, the tree's only links are theirs, and
      there is no receipt yet. */
  ghost predicate Stage(nodes: Tree, landed: seq<Segment>) {
    TreeOk(nodes) && COMPLETE !in nodes && AllPresent(nodes, landed) && LinksAre(nodes, landed)
  }

  /** A landing of the table without faults, and how the call ends. */
  ghost predicate CalmFill(l: Landed, ix: Index, r: Outcome, nodes: Tree) {
    match l
    case Lands(t) => r.Done? && nodes == Finished(t, ix)
    case Stuck => r.Failed?
    case Strays => true
  }

  /** One row and its progress note, without faults. */
  ghost function NotedRow(nodes: Tree, e: Segment, limit: nat): Landed
    requires |e.path| > 0
  {
    match LandRow(nodes, e, limit) case Lands(t) => Lands(Noted(t)) case w => w
  }

  ghost predicate PathsGiven(rows: seq<Segment>) {
    forall e :: e in rows ==> |e.path| > 0
  }

  /** What is left to land comes to `whole`, unless that has gone astray. */
  ghost predicate OnCourse(whole: Landed, nodes: Tree, rest: seq<Segment>, limit: nat)
    requires PathsGiven(rest)
  {
    whole.Strays? || (LandRows(nodes, rest, limit) == whole && TidyMarkers(nodes))
  }

  lemma CourseNext(whole: Landed, nodes: Tree, rest: seq<Segment>, s: Status, after: Tree, limit: nat)
    requires PathsGiven(rest) && rest != [] && OnCourse(whole, nodes, rest, limit)
    requires Agrees(NotedRow(nodes, rest[0], limit), s, after)
    ensures PathsGiven(rest[1..])
    ensures s.Good? ==> OnCourse(whole, after, rest[1..], limit)
    ensures !s.Good? ==> Agrees(whole, s, after)
  {
    if !whole.Strays? {
      match LandRow(nodes, rest[0], limit) {
        case Lands(t) => NotedTidy(t);
        case _ =>
      }
    }
  }

  lemma NotedIs(nodes: Tree)
    ensures (nodes[EXPANDING_TMP := File(Progress)] - {EXPANDING_TMP})[EXPANDING := File(Progress)] == Noted(nodes)
  {
  }

  /** A row whose directory cannot be had, or lies outside the tree, or that cannot be given its mode. */
  lemma RowOut(start: Tree, e: Segment, limit: nat)
    requires |e.path| > 0
    ensures var w := Mkdirs(start, [], ParentOf(e.path), limit).1;
      && (w.Barred? ==> LandRow(start, e, limit) == Stuck)
      && (w.Away? ==> LandRow(start, e, limit) == Strays)
      && (w.At? && !e.IsLink() && !e.modeOk ==> LandRow(start, e, limit) == Stuck)
  {
  }

  /** A row landed in the directory found for it. */
  lemma RowIn(start: Tree, made: Tree, w: Walked, e: Segment, limit: nat, s: Status, nodes: Tree)
    requires |e.path| > 0 && Mkdirs(start, [], ParentOf(e.path), limit) == (made, w) && w.At? && !s.Crash?
    requires s.Good? <==> Fits(made, w.dir + [LastOf(e.path)], e)
    requires s.Good? ==> nodes == made[w.dir + [LastOf(e.path)] := NodeOf(e)]
    ensures Agrees(LandRow(start, e, limit), s, nodes)
  {
  }

  lemma NotedTidy(nodes: Tree)
    requires TidyMarkers(nodes)
    ensures TidyMarkers(Noted(nodes))
  {
  }

  lemma RowsGiven(done: seq<Segment>, rows: seq<Segment>)
    requires Rows(done + rows)
    ensures PathsGiven(rows)
  {
    assert forall e :: e in rows ==> e in done + rows;
  }

  lemma RowsUpTo(done: seq<Segment>, rows: seq<Segment>, k: nat)
    requires k < |rows| && Rows(done + rows)
    ensures Rows(done + rows[..k] + [rows[k]]) && done + rows[..k + 1] == done + rows[..k] + [rows[k]]
    ensures ModesOk(rows[..k]) && (rows[k].IsLink() || rows[k].modeOk) ==> ModesOk(rows[..k + 1])
    ensures PathsGiven(rows[k..])
  {
    assert rows[..k + 1] == rows[..k] + [rows[k]];
    assert forall e :: e in done + rows[..k] + [rows[k]] ==> e in done + rows;
    assert forall e :: e in rows[k..] ==> e in done + rows;
  }

  /** Some row of `rows` lies below a link of `all`. */
  ghost predicate Crossed(all: seq<Segment>, rows: seq<Segment>) {
    exists l, e :: l in all && l.IsLink() && e in rows && ProperPrefix(l.path, e.path)
  }

  /** The walk so far: straight on, or through a link. */
  ghost predicate Walking(start: Tree, nodes: Tree, p: Path, n: nat, at: Path, tame: bool)
    requires n <= |p|
  {
    if tame then at == p[..n] && Grown(start, nodes, p) else ThroughLink(start, p)
  }

  lemma AllButOne(nodes: Tree, p: Path, n: Node)
    requires TreeOk(nodes) && |p| == 1 && (p in nodes ==> nodes[p].File?)
    ensures nodes[p := n] - {p} == nodes - {p} && nodes[p := n] - {p} - {p} == nodes - {p} && TreeOk(nodes - {p})
  {
    NothingBelowFile(nodes, p);
    RemovedMarker(nodes, p);
  }

  lemma WholePath(p: Path)
    requires p != []
    ensures ParentOf(p) + [LastOf(p)] == p
  {
  }

  lemma PrefixNext(p: Path, n: nat)
    requires n < |p|
    ensures p[..n] + [p[n]] == p[..n + 1]
  {
  }

  lemma TailOf(p: Path, n: nat)
    requires n < |p|
    ensures p[n..] != [] && p[n..][0] == p[n] && p[n..][1..] == p[n + 1..]
  {
  }

  lemma WalkedOn(start: Tree, before: Tree, nodes: Tree, p: Path, n: nat, q: Path, tame: bool, w: Walked)
    requires n < |p| && p[0] !in RESERVED && TreeOk(nodes)
    requires if tame then q == p[..n + 1] && Grown(start, before, p) else ThroughLink(start, p)
    requires nodes == before || (q !in before && nodes == before[q := Dir])
    requires !IsLinkAt(before, q) ==> !w.Away? && (w.At? ==> w.dir == q)
    ensures var still := tame && !IsLinkAt(before, q);
      && (still ==> Grown(start, nodes, p) && !w.Away?)
      && (!still ==> ThroughLink(start, p))
      && (w.At? ==> Walking(start, nodes, p, n + 1, w.dir, still))
  {
    if tame {
      if IsLinkAt(before, q) { LinkWas(start, before, p, n + 1); }
      else { StraightOn(start, before, nodes, p, q); }
    }
  }

  lemma LinkWas(start: Tree, before: Tree, p: Path, n: nat)
    requires 0 < n <= |p| && Grown(start, before, p) && IsLinkAt(before, p[..n])
    ensures ThroughLink(start, p)
  {
    assert IsLinkAt(start, p[..n]);
  }

  lemma StraightOn(start: Tree, before: Tree, nodes: Tree, p: Path, q: Path)
    requires Grown(start, before, p) && 0 < |q| <= |p| && q == p[..|q|] && p[0] !in RESERVED && TreeOk(nodes)
    requires nodes == before || (q !in before && nodes == before[q := Dir])
    ensures Grown(start, nodes, p)
  {
  }

  lemma MadeOn(before: Tree, nodes: Tree, at: Path, cs: Path, left: nat, w: Walked)
    requires cs != []
    requires if at + [cs[0]] !in before then nodes == before[at + [cs[0]] := Dir] && w == At(at + [cs[0]], left)
             else nodes == before && w == Entered(before, at, cs[0], left)
    ensures Mkdirs(before, at, cs, left) == if w.At? then Mkdirs(nodes, w.dir, cs[1..], w.left) else (before, w)
  {
  }

  lemma TableSplit(table: seq<Segment>)
    requires GoodTable(table)
    ensures [] + Files(table) == Files(table) && Rows(Files(table)) && Rows(Files(table) + Links(table))
    ensures PathsGiven(Files(table) + Links(table)) && PathsGiven(Files(table)) && PathsGiven(Links(table))
    ensures forall e :: e in Files(table) ==> e in table && !e.IsLink()
    ensures forall e :: e in Links(table) ==> e in table && e.IsLink()
  {
    SplitExact(table);
    PathsUnique(table);
  }

  lemma AllLanded(table: seq<Segment>, nodes: Tree)
    ensures AllPresent(nodes, Files(table) + Links(table)) ==> AllPresent(nodes, table)
    ensures ModesOk(Files(table)) ==> ModesOk(table)
  {
    SplitExact(table);
    if AllPresent(nodes, Files(table) + Links(table)) {
      forall e | e in table ensures Present(nodes, e) { assert e in Files(table) + Links(table); }
    }
  }

  lemma AllStopped(start: Tree, files: seq<Segment>, links: seq<Segment>, limit: nat, s: Status, nodes: Tree)
    requires PathsGiven(files + links) && PathsGiven(files) && !s.Good?
    requires Agrees(LandRows(start, files, limit), s, nodes)
    ensures Agrees(LandRows(start, files + links, limit), s, nodes)
  {
    LandRowsJoin(start, files, links, limit);
  }

  lemma AllJoined(start: Tree, files: seq<Segment>, links: seq<Segment>, limit: nat, mid: Tree, s: Status, nodes: Tree)
    requires TidyMarkers(start) && PathsGiven(files + links) && PathsGiven(files) && PathsGiven(links)
    requires Agrees(LandRows(start, files, limit), Good, mid)
    requires TidyMarkers(mid) ==> Agrees(LandRows(mid, links, limit), s, nodes)
    ensures Agrees(LandRows(start, files + links, limit), s, nodes)
  {
    LandRowsJoin(start, files, links, limit);
    RowsTidy(start, files, limit);
  }

  lemma {:induction false} RowsTidy(nodes: Tree, rows: seq<Segment>, limit: nat)
    requires TidyMarkers(nodes) && PathsGiven(rows)
    ensures LandRows(nodes, rows, limit).Lands? ==> TidyMarkers(LandRows(nodes, rows, limit).nodes)
    decreases |rows|
  {
    if rows != [] {
      match LandRow(nodes, rows[0], limit) {
        case Lands(t) => NotedTidy(t); RowsTidy(Noted(t), rows[1..], limit);
        case _ =>
      }
    }
  }

  lemma CrossedHere(done: seq<Segment>, rows: seq<Segment>, k: nat)
    requires k < |rows|
    requires exists l :: l in done + rows[..k] && l.IsLink() && ProperPrefix(l.path, rows[k].path)
    ensures Crossed(done + rows, rows)
  {
    var l :| l in done + rows[..k] && l.IsLink() && ProperPrefix(l.path, rows[k].path);
    assert l in done + rows && rows[k] in rows;
  }

  lemma FilesNeverCross(files: seq<Segment>)
    requires forall e :: e in files ==> !e.IsLink()
    ensures !Crossed([] + files, files)
  {
    assert [] + files == files;
  }

  lemma CrossedLinks(table: seq<Segment>, files: seq<Segment>, links: seq<Segment>)
    requires Crossed(files + links, links)
    requires (forall e :: e in files ==> !e.IsLink()) && forall e :: e in links ==> e in table && e.IsLink()
    ensures !NoLinkBelowLink(table)
  {
    var l, e :| l in files + links && l.IsLink() && e in links && ProperPrefix(l.path, e.path);
    assert l in links;
  }

  lemma NothingBelowFile(nodes: Tree, p: Path)
    requires TreeOk(nodes) && |p| == 1
    ensures p in nodes && nodes[p].File? ==> forall q :: q in nodes && |q| > 1 ==> q[0] != p[0]
  {
    if p in nodes && nodes[p].File? {
      forall q | q in nodes && |q| > 1 ensures q[0] != p[0] {
        TopIsThere(nodes, q);
        assert p == [p[0]];
      }
    }
  }

  lemma ReceiptOnly(a: Tree, b: Tree, c: Tree, ix: Index)
    requires COMPLETE !in a && [".complete.tmp"] !in a
    requires b == (a - {[".complete.tmp"]})[COMPLETE := File(Completed(ReceiptOf(ix)))] && c == b - {EXPANDING}
    ensures c == Finished(a, ix)
  {
    assert COMPLETE[0] != EXPANDING[0];
    assert a - {[".complete.tmp"]} == a;
  }

  /** Segments as they come from a good table. */
  ghost predicate Rows(rows: seq<Segment>) {
    && (forall e :: e in rows ==> |e.path| > 0 && e.path[0] !in RESERVED)
    && (forall e, f :: e in rows && f in rows && e.path == f.path ==> e == f)
  }

  lemma RowStep(a: Tree, b: Tree, landing: seq<Segment>, e: Segment, s: Status, tame: bool)
    requires Stage(a, landing) && Rows(landing + [e])
    requires tame ==> Landing(a, b, e.path) && (s.Good? ==> Present(b, e))
    requires !tame ==> |e.path| > 0 && ThroughLink(a, ParentOf(e.path))
    ensures tame ==> COMPLETE !in b && (s.Good? ==> Stage(b, landing + [e]))
    ensures !tame ==> exists l :: l in landing && l.IsLink() && ProperPrefix(l.path, e.path)
  {
    assert e in landing + [e];
    if !tame {
      LinkAbove(a, landing, e);
    } else if s.Good? {
      StageNext(a, b, landing, e);
    }
  }

  lemma StageNext(a: Tree, b: Tree, landed: seq<Segment>, e: Segment)
    requires Stage(a, landed) && Landing(a, b, e.path) && |e.path| > 0 && e.path[0] !in RESERVED
    requires Present(b, e) && forall l :: l in landed && l.path == e.path ==> l == e
    ensures Stage(b, landed + [e])
  {
    forall l | l in landed + [e] ensures Present(b, l) {
      if l in landed { assert Present(a, l); }
    }
    forall q | q in b && b[q].Link? ensures |q| > 0 && (q[0] in RESERVED || Linked(landed + [e], q)) {
      if q == e.path { assert e in landed + [e]; }
      else {
        assert a[q].Link?;
        if q[0] !in RESERVED {
          var l :| l in landed && l.path == q && l.IsLink();
          assert l in landed + [e];
        }
      }
    }
  }

  lemma StageProgress(a: Tree, b: Tree, landed: seq<Segment>)
    requires Stage(a, landed) && ProgressOnly(a, b) && forall l :: l in landed ==> |l.path| > 0 && l.path[0] !in RESERVED
    ensures Stage(b, landed)
  {
    forall l | l in landed ensures Present(b, l) { assert Present(a, l); }
    forall q | q in b && b[q].Link? ensures |q| > 0 && (q[0] in RESERVED || Linked(landed, q)) {
      if q != EXPANDING && q != EXPANDING_TMP { assert a[q].Link?; }
    }
  }

  /** The only way a landing meets a link is that a link segment lies above it. */
  lemma LinkAbove(nodes: Tree, landed: seq<Segment>, e: Segment)
    requires Stage(nodes, landed) && |e.path| > 0 && e.path[0] !in RESERVED && ThroughLink(nodes, ParentOf(e.path))
    ensures exists l :: l in landed && l.IsLink() && ProperPrefix(l.path, e.path)
  {
    var n :| 0 < n <= |ParentOf(e.path)| && IsLinkAt(nodes, ParentOf(e.path)[..n]);
    var q := ParentOf(e.path)[..n];
    assert q[0] == e.path[0];
    var l :| l in landed && l.path == q && l.IsLink();
    assert e.path[..|q|] == q;
  }

  lemma TidyLanding(a: Tree, b: Tree, at: Path)
    requires Landing(a, b, at) && |at| > 0 && at[0] !in RESERVED
    ensures TidyMarkers(a) ==> TidyMarkers(b)
  {
  }

  lemma TidyProgress(a: Tree, b: Tree)
    requires ProgressOnly(a, b)
    requires forall q :: q in b && (q == EXPANDING || q == EXPANDING_TMP) ==> b[q].File? || (q in a && b[q] == a[q])
    ensures TidyMarkers(a) ==> TidyMarkers(b)
  {
  }

  /** A rollback that removed all it should has emptied the tree. */
  lemma NothingLeft(a: Tree, b: Tree, c: Tree)
    requires TreeOk(a) && TidyMarkers(a) && c.Keys <= b.Keys <= a.Keys
    requires forall q :: q in b ==> |q| > 0 && q[0] in MARKERS
    requires forall q :: q in c ==> q[0] !in {".expanding.tmp", ".expanding", ".complete"}
    ensures c == map[]
  {
    assert forall q :: q in a && q[0] in RESERVED ==> q[0] == EXPANDING[0] || q[0] == EXPANDING_TMP[0];
  }

  /** Segments that are all there do not stand in each other's way. */
  lemma PresentLandable(nodes: Tree, table: seq<Segment>)
    requires TreeOk(nodes) && GoodTable(table) && ModesOk(table)
    ensures AllPresent(nodes, table) ==> Landable(table)
  {
    if AllPresent(nodes, table) {
      forall e, f | e in table && f in table ensures !ProperPrefix(e.path, f.path) {
        assert Present(nodes, e) && Present(nodes, f);
        if ProperPrefix(e.path, f.path) { AncestorsAreDirs(nodes, f.path, |e.path|); }
      }
    }
  }

  /** While landing, the receipt and its temporary are not there. */
  lemma NoReceiptYet(nodes: Tree)
    requires TidyMarkers(nodes)
    ensures COMPLETE !in nodes && [".complete.tmp"] !in nodes
  {
    var done, tmp := ".complete", ".complete.tmp";
    assert |done| == 9 && |tmp| == 13 && |".expanding"| == 10 && |".expanding.tmp"| == 14;
    assert [done][0] in RESERVED && [tmp][0] in RESERVED;
    assert COMPLETE[0] == done && EXPANDING[0] == ".expanding" && EXPANDING_TMP[0] == ".expanding.tmp";
    assert [tmp] != EXPANDING && [tmp] != EXPANDING_TMP by { assert [tmp][0] == tmp; }
  }

  lemma TempUnused(nodes: Tree, at: Path, random: string)
    requires |at| > 0 && Unused(nodes, random)
    ensures TempPath(at, random) !in nodes
  {
    var tmp := TempPath(at, random);
    assert |tmp[|tmp| - 1]| >= |random|;
  }

  function TempPath(p: Path, random: string): (tmp: Path)
    requires |p| > 0
    ensures |tmp| == |p| && tmp[..|tmp| - 1] == ParentOf(p)
  {
    ParentOf(p) + ["." + p[|p| - 1] + ".zerg-egg-part-" + random]
  }

  lemma GrownLands(a: Tree, b: Tree, p: Path, at: Path)
    requires Grown(a, b, p)
    ensures Landing(a, b, at)
  {
  }

  lemma GrownAndLanded(a: Tree, b: Tree, c: Tree, at: Path)
    requires |at| > 0 && Grown(a, b, ParentOf(at)) && Landing(b, c, at)
    ensures Landing(a, c, at)
  {
  }

  lemma PutLink(a: Tree, p: Path, target: string)
    requires TreeOk(a) && |p| > 0 && (|p| > 1 ==> IsDir(a, p[..|p| - 1])) && !IsDir(a, p)
    ensures TreeOk(a[p := Link(target)]) && TreeOk(a - {p})
  {
    forall b, q | (b == a[p := Link(target)] || b == a - {p}) && q in b && |q| > 1 ensures IsDir(b, q[..|q| - 1]) {
      if q == p {
        assert IsDir(a, p[..|p| - 1]);
      } else {
        assert IsDir(a, q[..|q| - 1]);
      }
    }
  }

  /** A temporary was left behind where there was nothing. */
  ghost predicate LeftOver(a: Tree, b: Tree, tmp: Path) {
    tmp !in a && tmp in b && b[tmp].File? && b == a[tmp := b[tmp]]
  }

  lemma OneLanded(a: Tree, b: Tree, at: Path, tmp: Path, s: Status)
    requires TreeOk(b) && at != [] && at[0] !in RESERVED && (exists random :: tmp == TempPath(at, random))
    requires if s.Good? then at in b && b[at].File? && b == a[at := b[at]] else a == b || LeftOver(a, b, tmp)
    ensures Landing(a, b, at)
  {
    var random :| tmp == TempPath(at, random);
    TempName(LastOf(at), random);
    assert tmp[0] !in RESERVED by {
      if |at| > 1 { assert tmp[..|tmp| - 1][0] == tmp[0] && ParentOf(at)[0] == at[0]; }
    }
  }

  lemma PutFile(a: Tree, p: Path, c: Content)
    requires TreeOk(a) && |p| > 0 && (|p| > 1 ==> IsDir(a, p[..|p| - 1])) && !IsDir(a, p)
    ensures TreeOk(a[p := File(c)])
  {
    var b := a[p := File(c)];
    forall q | q in b && |q| > 1 ensures IsDir(b, q[..|q| - 1]) {
      if q == p {
        assert IsDir(a, p[..|p| - 1]);
      } else {
        assert IsDir(a, q[..|q| - 1]);
      }
    }
  }

  /** A temporary's name is longer than every reserved name. */
  lemma TempName(base: string, random: string)
    ensures "." + base + ".zerg-egg-part-" + random !in RESERVED
  {
    assert |"." + base + ".zerg-egg-part-" + random| >= 16;
    assert |".complete"| == 9 && |".failed"| == 7 && |".expanding"| == 10;
    assert |".expanding.tmp"| == 14 && |".complete.tmp"| == 13 && |".failed.tmp"| == 11;
  }
}

/**
The format check on a table's symbolic links: every target read lexically from its link's directory,
and every chain of links short.  Nothing is read from a disk.
*/
module Symlinks {
  type Path = seq<string>      // components; [] is the root

  const MAX_TARGET := 4096
  const MAX_DEPTH := 8

  datatype Verdict = Accepted | TargetInvalid | TargetAbsolute | TargetEscapes | Cycle | TooDeep

  // ------------------------------------------------------------ lexical resolution

  /** The components of a slash-separated string; empty ones included. */
  function Components(s: string): (cs: seq<string>)
    ensures |cs| >= 1
    ensures forall c :: c in cs ==> '/' !in c
  {
    if s == "" then [""]
    else
      var rest := Components(s[1..]);
      if s[0] == '/' then [""] + rest else [[s[0]] + rest[0]] + rest[1..]
  }

  /** One component of the walk, as path.Clean treats it: what rises above the start stays as "..". */
  function Move(at: Path, c: string): Path {
    if c == "" || c == "." then at
    else if c != ".." then at + [c]
    else if at == [] || at[|at| - 1] == ".." then at + [".."]
    else at[..|at| - 1]
  }

  function Walk(at: Path, cs: seq<string>): Path
    decreases |cs|
  {
    if cs == [] then at else Walk(Move(at, cs[0]), cs[1..])
  }

  /** Slashes between the components give the string back. */
  function Joined(cs: seq<string>): string
    requires cs != []
  {
    if |cs| == 1 then cs[0] else cs[0] + "/" + Joined(cs[1..])
  }

  lemma {:induction false} ComponentsJoin(s: string)
    ensures Joined(Components(s)) == s
  {
    if s != "" {
      var rest := Components(s[1..]);
      ComponentsJoin(s[1..]);
      if s[0] == '/' {
        assert ([""] + rest)[1..] == rest && s == "" + "/" + s[1..];
      } else {
        JoinedFirst(s[0], rest);
        assert s == [s[0]] + s[1..];
      }
    }
  }

  lemma JoinedFirst(c: char, cs: seq<string>)
    requires cs != []
    ensures Joined([[c] + cs[0]] + cs[1..]) == [c] + Joined(cs)
  {
    if |cs| > 1 {
      assert ([[c] + cs[0]] + cs[1..])[1..] == cs[1..];
      assert [c] + cs[0] + "/" + Joined(cs[1..]) == [c] + (cs[0] + "/" + Joined(cs[1..]));
    }
  }

  /** WHERE A WALK ENDS: component after component, an empty one or a dot stays, a name goes down, and two dots
      go up, or, with nothing left to leave, are kept. */
  lemma {:induction false} WalkOn(at: Path, cs: seq<string>, c: string)
    ensures var here := Walk(at, cs);
      Walk(at, cs + [c]) ==
        if c == "" || c == "." then here
        else if c != ".." then here + [c]
        else if here == [] || here[|here| - 1] == ".." then here + [".."]
        else here[..|here| - 1]
    decreases |cs|
  {
    if cs == [] {
      assert cs + [c] == [c] && [c][1..] == [];
    } else {
      assert (cs + [c])[1..] == cs[1..] + [c];
      WalkOn(Move(at, cs[0]), cs[1..], c);
    }
  }

  function DirOf(link: Path): Path {
    if link == [] then [] else link[..|link| - 1]
  }

  /** A link resolves against the directory it lies in. */
  lemma FromItsDirectory(link: Path, target: string)
    requires link != []
    ensures Resolve(link, target).0 == Walk(link[..|link| - 1], Components(target))
    ensures Resolve(link, target).1 <==> Resolve(link, target).0 == [] || Resolve(link, target).0[0] != ".."
  {
  }

  lemma {:induction false} OneComponent(c: string)
    requires '/' !in c
    ensures Components(c) == [c]
  {
    if c != "" {
      OneComponent(c[1..]);
      assert c == [c[0]] + c[1..];
    }
  }

  lemma UpFirst(rest: string)
    ensures Components("../" + rest) == [".."] + Components(rest)
  {
    var s := "../" + rest;
    assert s[1..] == "./" + rest && s[1..][1..] == "/" + rest && s[1..][1..][1..] == rest;
    assert Components("/" + rest) == [""] + Components(rest);
    assert Components("./" + rest) == ["."] + Components(rest) by { assert ['.'] + "" == "."; }
    assert ['.'] + "." == "..";
  }

  /** A bare name points beside the link. */
  lemma BareName(link: Path, c: string)
    requires link != [] && c != "" && c != "." && c != ".." && '/' !in c && (|link| == 1 || link[0] != "..")
    ensures Resolve(link, c) == (link[..|link| - 1] + [c], true)
  {
    OneComponent(c);
    var dir := link[..|link| - 1];
    assert [c][1..] == [] && DirOf(link) == dir;
    assert Walk(dir, [c]) == Walk(dir + [c], []) == dir + [c];
  }

  /** One step up from a nested link is the rest of the target from the directory above: accepted when
      that is; from a link at the root it is refused. */
  lemma OneStepUp(link: Path, rest: string)
    requires Plain(link) && link != []
    ensures |link| > 1 ==> Resolve(link, "../" + rest) == Resolve(link[..|link| - 1], rest)
    ensures |link| == 1 ==> !Resolve(link, "../" + rest).1
  {
    UpFirst(rest);
    assert ([".."] + Components(rest))[1..] == Components(rest);
    if |link| == 1 {
      assert DirOf(link) == [] && Move([], "..") == [".."];
      assert Walk([], [".."] + Components(rest)) == Walk([".."], Components(rest));
      RisenStays([".."], Components(rest));
    }
  }

  /** Where a link points, and whether that is inside the root. */
  function Resolve(link: Path, target: string): (r: (Path, bool)) {
    var at := Walk(DirOf(link), Components(target));
    (at, at == [] || at[0] != "..")
  }

  /** The same walk as bookkeeping of depth alone: it never takes a step up from the root. */
  predicate NeverRises(depth: nat, cs: seq<string>)
    decreases |cs|
  {
    if cs == [] then true
    else if cs[0] == "" || cs[0] == "." then NeverRises(depth, cs[1..])
    else if cs[0] != ".." then NeverRises(depth + 1, cs[1..])
    else depth > 0 && NeverRises(depth - 1, cs[1..])
  }

  predicate Plain(at: Path) {
    forall k :: 0 <= k < |at| ==> at[k] != ".."
  }

  lemma {:induction false} RisenStays(at: Path, cs: seq<string>)
    requires |at| > 0 && at[0] == ".."
    ensures |Walk(at, cs)| > 0 && Walk(at, cs)[0] == ".."
    decreases |cs|
  {
    if cs != [] { RisenStays(Move(at, cs[0]), cs[1..]); }
  }

  lemma {:induction false} WalkInside(at: Path, cs: seq<string>)
    requires Plain(at)
    ensures NeverRises(|at|, cs) ==> Plain(Walk(at, cs))
    ensures !NeverRises(|at|, cs) ==> |Walk(at, cs)| > 0 && Walk(at, cs)[0] == ".."
    decreases |cs|
  {
    if cs != [] {
      var c := cs[0];
      if c == ".." && at == [] {
        assert Move(at, c) == [".."];
        RisenStays([".."], cs[1..]);
      }
      else { WalkInside(Move(at, c), cs[1..]); }
    }
  }

  /** A target resolves inside the root exactly when its component walk never rises above it. */
  lemma InsideIffNeverRises(link: Path, target: string)
    requires Plain(link)
    ensures Resolve(link, target).1 <==> NeverRises(if link == [] then 0 else |link| - 1, Components(target))
  {
    WalkInside(DirOf(link), Components(target));
  }

  // ------------------------------------------------------------ the declared meaning

  predicate NamesSomething(target: string) {
    target != "" && |target| <= MAX_TARGET && '\0' !in target
  }

  predicate TargetOk(link: Path, target: string) {
    && NamesSomething(target)
    && target[0] != '/'
    && NeverRises(|DirOf(link)|, Components(target))
  }

  function Next(links: map<Path, string>, at: Path): Path
    requires at in links
  {
    Resolve(at, links[at]).0
  }

  /** Following `n` links from `at` ends at something that is not a link. */
  predicate Ends(links: map<Path, string>, at: Path, n: nat)
    decreases n
  {
    if n == 0 then at !in links else at in links && Ends(links, Next(links, at), n - 1)
  }

  /** WHAT IS ACCEPTED OF A TARGET: between one and 4096 characters without a NUL, relative, and never rising above
      the root on the way from the link's directory. */
  lemma TargetOutcome(link: Path, target: string)
    requires link != []
    ensures TargetOk(link, target) <==>
      && 1 <= |target| <= 4096 && '\0' !in target && target[0] != '/'
      && NeverRises(|link| - 1, Components(target))
    ensures MAX_DEPTH == 8
  {
  }

  predicate ChainOk(links: map<Path, string>, at: Path) {
    exists n: nat :: n <= MAX_DEPTH && Ends(links, at, n)
  }

  predicate SetOk(links: map<Path, string>) {
    forall link :: link in links ==> TargetOk(link, links[link]) && ChainOk(links, link)
  }

  /** `at` follows from `link` in `n` steps, all through links. */
  predicate Follows(links: map<Path, string>, link: Path, n: nat, at: Path)
    decreases n
  {
    if n == 0 then at == link else link in links && Follows(links, Next(links, link), n - 1, at)
  }

  /** The chain is at `at` after `n` and after `m` steps, none past the limit. */
  ghost predicate Meets(links: map<Path, string>, link: Path, n: nat, m: nat, at: Path) {
    n < m <= MAX_DEPTH && Follows(links, link, n, at) && Follows(links, link, m, at)
  }

  /** The chain comes back, within the limit, to a place it has been. */
  ghost predicate Returns(links: map<Path, string>, link: Path) {
    exists n: nat, m: nat, at :: Meets(links, link, n, m, at)
  }

  /** The places a chain has been, in order, none of them twice. */
  ghost predicate Trail(links: map<Path, string>, link: Path, trail: seq<Path>) {
    && (forall k :: 0 <= k < |trail| ==> Follows(links, link, k, trail[k]))
    && (forall j, k :: 0 <= j < k < |trail| ==> trail[j] != trail[k])
  }

  // ------------------------------------------------------------ the check itself

  method CheckTarget(link: Path, target: string) returns (v: Verdict)
    requires Plain(link)
    ensures v == if !NamesSomething(target) then TargetInvalid
                 else if target[0] == '/' then TargetAbsolute
                 else if !NeverRises(|DirOf(link)|, Components(target)) then TargetEscapes
                 else Accepted
    ensures v.Accepted? <==> TargetOk(link, target)
  {
    if target == "" || |target| > MAX_TARGET || '\0' in target { return TargetInvalid; }
    if target[0] == '/' { return TargetAbsolute; }
    InsideIffNeverRises(link, target);
    if !Resolve(link, target).1 { return TargetEscapes; }
    v := Accepted;
  }

  /** The walk along one chain: it stops at the first non-link, at a link seen before, or too deep. */
  method CheckChain(links: map<Path, string>, link: Path) returns (v: Verdict)
    requires link in links
    ensures v.Accepted? <==> ChainOk(links, link)
    ensures v.Accepted? || v.Cycle? || v.TooDeep?
    ensures v.Cycle? <==> Returns(links, link)
  {
    var seen := {link};
    var cur := link;
    var depth := 1;
    ghost var trail := [link];
    while true
      invariant 1 <= depth <= MAX_DEPTH && cur in links
      invariant |trail| == depth && trail[depth - 1] == cur && Trail(links, link, trail)
      invariant forall p :: p in seen <==> p in trail
      decreases MAX_DEPTH - depth
    {
      var next := Next(links, cur);
      TrailNext(links, link, trail);
      if next !in links {
        assert Ends(links, next, 0);
        EndsBack(links, link, depth, next, 0);
        assert Ends(links, link, depth);
        EndedNeverReturns(links, link, depth);
        return Accepted;
      }
      if next in seen {
        ghost var n :| 0 <= n < depth && trail[n] == next;
        NoEnd(links, link, n, depth, next);
        assert Meets(links, link, n, depth, next);
        return Cycle;
      }
      seen := seen + {next};
      trail := trail + [next];
      depth := depth + 1;
      if depth > MAX_DEPTH {
        TooLong(links, link, MAX_DEPTH, next);
        TrailNeverReturns(links, link, trail);
        return TooDeep;
      }
      cur := next;
    }
  }

  method RefuseSymlinkSet(links: map<Path, string>) returns (v: Verdict)
    requires forall link :: link in links ==> Plain(link)
    ensures v.Accepted? <==> SetOk(links)
  {
    var rest := links.Keys;
    while rest != {}
      invariant rest <= links.Keys
      invariant forall p :: p in links && p !in rest ==> TargetOk(p, links[p])
    {
      var link :| link in rest;
      rest := rest - {link};
      v := CheckTarget(link, links[link]);
      if !v.Accepted? { return; }
    }
    rest := links.Keys;
    while rest != {}
      invariant rest <= links.Keys
      invariant forall p :: p in links && p !in rest ==> ChainOk(links, p)
    {
      var link :| link in rest;
      rest := rest - {link};
      v := CheckChain(links, link);
      if !v.Accepted? { return; }
    }
    v := Accepted;
  }

  // ------------------------------------------------------------ chains

  lemma {:induction false} FollowsNext(links: map<Path, string>, link: Path, n: nat, at: Path)
    requires Follows(links, link, n, at) && at in links
    ensures Follows(links, link, n + 1, Next(links, at))
    decreases n
  {
    if n > 0 {
      FollowsNext(links, Next(links, link), n - 1, at);
    } else {
      assert Follows(links, Next(links, at), 0, Next(links, at));
    }
  }

  lemma {:induction false} EndsBack(links: map<Path, string>, link: Path, n: nat, at: Path, k: nat)
    requires Follows(links, link, n, at) && Ends(links, at, k)
    ensures Ends(links, link, n + k)
    decreases n
  {
    if n > 0 { EndsBack(links, Next(links, link), n - 1, at, k); }
  }

  lemma {:induction false} EndsOnward(links: map<Path, string>, link: Path, n: nat, at: Path, k: nat)
    requires Follows(links, link, n, at) && Ends(links, link, k)
    ensures n <= k && Ends(links, at, k - n)
    decreases n
  {
    if n > 0 { EndsOnward(links, Next(links, link), n - 1, at, k - 1); }
  }

  /** A chain that comes back to a place it has been never ends. */
  lemma NoEnd(links: map<Path, string>, link: Path, n: nat, m: nat, at: Path)
    requires n < m && Follows(links, link, n, at) && Follows(links, link, m, at)
    ensures forall k: nat :: !Ends(links, link, k)
  {
    forall k: nat ensures !Ends(links, link, k) {
      if Ends(links, link, k) {
        EndsOnward(links, link, n, at, k);
        EndsOnward(links, link, m, at, k);
        EndsOnce(links, at, k - n, k - m);
      }
    }
  }

  lemma {:induction false} EndsOnce(links: map<Path, string>, at: Path, k: nat, l: nat)
    requires Ends(links, at, k) && Ends(links, at, l)
    ensures k == l
    decreases k
  {
    if k > 0 && l > 0 { EndsOnce(links, Next(links, at), k - 1, l - 1); }
  }

  lemma TooLong(links: map<Path, string>, link: Path, n: nat, at: Path)
    requires Follows(links, link, n, at) && at in links
    ensures forall k: nat :: k <= n ==> !Ends(links, link, k)
  {
    forall k: nat | k <= n ensures !Ends(links, link, k) {
      if Ends(links, link, k) { EndsOnward(links, link, n, at, k); }
    }
  }

  lemma {:induction false} FollowsOnce(links: map<Path, string>, link: Path, n: nat, a: Path, b: Path)
    requires Follows(links, link, n, a) && Follows(links, link, n, b)
    ensures a == b
    decreases n
  {
    if n > 0 { FollowsOnce(links, Next(links, link), n - 1, a, b); }
  }

  lemma TrailNext(links: map<Path, string>, link: Path, trail: seq<Path>)
    requires Trail(links, link, trail) && trail != [] && trail[|trail| - 1] in links
    ensures Follows(links, link, |trail|, Next(links, trail[|trail| - 1]))
    ensures Next(links, trail[|trail| - 1]) !in trail ==> Trail(links, link, trail + [Next(links, trail[|trail| - 1])])
  {
    FollowsNext(links, link, |trail| - 1, trail[|trail| - 1]);
  }

  lemma TrailNeverReturns(links: map<Path, string>, link: Path, trail: seq<Path>)
    requires Trail(links, link, trail) && |trail| == MAX_DEPTH + 1
    ensures !Returns(links, link)
  {
    forall n: nat, m: nat, at ensures !Meets(links, link, n, m, at) {
      if Meets(links, link, n, m, at) {
        FollowsOnce(links, link, n, at, trail[n]);
        FollowsOnce(links, link, m, at, trail[m]);
      }
    }
  }

  lemma EndedNeverReturns(links: map<Path, string>, link: Path, k: nat)
    requires Ends(links, link, k)
    ensures !Returns(links, link)
  {
    forall n: nat, m: nat, at ensures !Meets(links, link, n, m, at) {
      if Meets(links, link, n, m, at) { NoEnd(links, link, n, m, at); }
    }
  }

  /** An accepted set has no cycle: no link is reached again from itself, however far one follows. */
  lemma AcceptedIsAcyclic(links: map<Path, string>, link: Path, n: nat)
    requires SetOk(links) && link in links && n > 0
    ensures !Follows(links, link, n, link)
  {
    if Follows(links, link, n, link) {
      assert Follows(links, link, 0, link);
      NoEnd(links, link, 0, n, link);
    }
  }

  /** The table whose expansion goes astray (a link below a link) passes this check. */
  lemma LinkBelowLinkAccepted()
    ensures SetOk(map[["a"] := "d", ["a", "b"] := "f"])
  {
    var links: map<Path, string> := map[["a"] := "d", ["a", "b"] := "f"];
    assert "d"[1..] == "" && "f"[1..] == "";
    assert Components("") == [""];
    assert ['d'] + "" == "d" && ['f'] + "" == "f";
    assert Components("d") == ["d"];
    assert Components("f") == ["f"];
    assert DirOf(["a", "b"]) == ["a"];
    assert Next(links, ["a"]) == ["d"] && Next(links, ["a", "b"]) == ["a", "f"];
    assert Ends(links, ["d"], 0) && Ends(links, ["a", "f"], 0);
    assert Ends(links, ["a"], 1) && Ends(links, ["a", "b"], 1);
  }
}

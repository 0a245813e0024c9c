/** Path cleaning, bind declarations, and the contract between declared weights and read-only binds. */
module WeightContract {
  import opened Wrappers
  import opened Text
  import Symlinks

  // ------------------------------------------------------------ cleaning a path

  predicate Proper(c: string) {
    c != "" && c != "." && c != ".." && '/' !in c
  }

  predicate AllProper(cs: seq<string>) {
    forall k :: 0 <= k < |cs| ==> Proper(cs[k])
  }

  /** One segment: nothing and "." are dropped, ".." takes one back, and at the top takes nothing. */
  function Segment(at: seq<string>, c: string): seq<string> {
    if c == "" || c == "." then at
    else if c == ".." then if at == [] then [] else at[..|at| - 1]
    else at + [c]
  }

  function Fold(at: seq<string>, cs: seq<string>): seq<string>
    decreases |cs|
  {
    if cs == [] then at else Fold(Segment(at, cs[0]), cs[1..])
  }

  function Join(cs: seq<string>): string {
    if cs == [] then "" else if |cs| == 1 then cs[0] else cs[0] + "/" + Join(cs[1..])
  }

  /** What is left of a path's segments. */
  function Parts(p: string): seq<string> {
    Fold([], Symlinks.Components(p))
  }

  predicate Absolute(p: string) {
    p != "" && p[0] == '/'
  }

  function Rooted(abs: bool, cs: seq<string>): string {
    (if abs then "/" else "") + Join(cs)
  }

  function Clean(p: string): string {
    Rooted(Absolute(p), Parts(p))
  }

  /** One more component: an empty one or a dot is dropped, a name is added, and two dots take the last one
      away, if there is one. */
  lemma {:induction false} FoldOn(at: seq<string>, cs: seq<string>, c: string)
    ensures var here := Fold(at, cs);
      Fold(at, cs + [c]) ==
        if c == "" || c == "." then here
        else if c != ".." then here + [c]
        else if here == [] then [] else here[..|here| - 1]
    decreases |cs|
  {
    if cs == [] {
      assert cs + [c] == [c] && [c][1..] == [];
    } else {
      assert (cs + [c])[1..] == cs[1..] + [c];
      FoldOn(Segment(at, cs[0]), cs[1..], c);
    }
  }

  method CleanPath(p: string) returns (clean: string)
    ensures clean == Clean(p)
  {
    var segs := Symlinks.Components(p);
    var out: seq<string> := [];
    assert segs[0..] == segs;
    for k := 0 to |segs|
      invariant Fold([], segs) == Fold(out, segs[k..])
    {
      var seg := segs[k];
      assert segs[k..][1..] == segs[k + 1..];
      if seg == "" || seg == "." {
      } else if seg == ".." {
        if out != [] { out := out[..|out| - 1]; }
      } else {
        out := out + [seg];
      }
    }
    assert segs[|segs|..] == [];
    clean := (if Absolute(p) then "/" else "") + Join(out);
  }

  lemma {:induction false} FoldProper(at: seq<string>, cs: seq<string>)
    requires AllProper(at) && forall c :: c in cs ==> '/' !in c
    ensures AllProper(Fold(at, cs))
    decreases |cs|
  {
    if cs != [] { FoldProper(Segment(at, cs[0]), cs[1..]); }
  }

  lemma PartsProper(p: string)
    ensures AllProper(Parts(p))
  {
    FoldProper([], Symlinks.Components(p));
  }

  /** Against the lexical walk that keeps what rises above its start: the same places as long as
      nothing rises, and different ones from the first step up on. */
  lemma {:induction false} FoldIsWalk(at: seq<string>, cs: seq<string>)
    requires AllProper(at) && forall c :: c in cs ==> '/' !in c
    ensures Fold(at, cs) == Symlinks.Walk(at, cs) <==> Symlinks.NeverRises(|at|, cs)
    decreases |cs|
  {
    Symlinks.WalkInside(at, cs);
    FoldProper(at, cs);
    if cs != [] && Symlinks.NeverRises(|at|, cs) { FoldIsWalk(Segment(at, cs[0]), cs[1..]); }
  }

  /** Cleaning a path leaves the segments of the plain lexical walk if and only if that walk never
      rises above its start; what does rise is dropped. */
  lemma CleanIsWalkIff(p: string)
    ensures Parts(p) == Symlinks.Walk([], Symlinks.Components(p)) <==> Symlinks.NeverRises(0, Symlinks.Components(p))
  {
    FoldIsWalk([], Symlinks.Components(p));
  }

  lemma {:induction false} FoldKeeps(at: seq<string>, cs: seq<string>)
    requires AllProper(cs)
    ensures Fold(at, cs) == at + cs
    decreases |cs|
  {
    if cs == [] {
      assert at + cs == at;
    } else {
      assert Proper(cs[0]);
      FoldKeeps(at + [cs[0]], cs[1..]);
      assert at + [cs[0]] + cs[1..] == at + cs;
    }
  }

  lemma {:induction false} ComponentsOfSlashFree(c: string, rest: string)
    requires '/' !in c
    ensures Symlinks.Components(c) == [c]
    ensures Symlinks.Components(c + ("/" + rest)) == [c] + Symlinks.Components(rest)
  {
    var t := "/" + rest;
    if c == "" {
      assert c + t == t && t[1..] == rest;
    } else {
      assert (c + t)[1..] == c[1..] + t && (c + t)[0] == c[0];
      ComponentsOfSlashFree(c[1..], rest);
      assert [c[0]] + c[1..] == c;
      assert [[c[0]] + c[1..]] + Symlinks.Components(rest) == [c] + Symlinks.Components(rest);
    }
  }

  lemma {:induction false} ComponentsOfJoin(cs: seq<string>)
    requires AllProper(cs) && cs != []
    ensures Symlinks.Components(Join(cs)) == cs
  {
    assert Proper(cs[0]);
    if |cs| == 1 {
      ComponentsOfSlashFree(cs[0], "");
    } else {
      ComponentsOfSlashFree(cs[0], Join(cs[1..]));
      assert Join(cs) == cs[0] + ("/" + Join(cs[1..]));
      ComponentsOfJoin(cs[1..]);
    }
  }

  lemma JoinHead(cs: seq<string>)
    requires AllProper(cs)
    ensures !Absolute(Join(cs))
  {
    if cs != [] { assert Proper(cs[0]); assert Join(cs)[0] == cs[0][0]; }
  }

  /** A path rebuilt from proper segments has exactly those segments. */
  lemma PartsOfRooted(abs: bool, cs: seq<string>)
    requires AllProper(cs)
    ensures Absolute(Rooted(abs, cs)) == abs && Parts(Rooted(abs, cs)) == cs
  {
    JoinHead(cs);
    var p := Rooted(abs, cs);
    if cs == [] {
      assert p == if abs then "/" else "";
      assert Symlinks.Components("") == [""];
      if abs { assert "/"[1..] == ""; assert Symlinks.Components("/") == ["", ""]; assert Fold([], ["", ""]) == Fold([], ["", ""][1..]); }
    } else {
      ComponentsOfJoin(cs);
      FoldKeeps([], cs);
      if abs {
        assert p[1..] == Join(cs);
        assert Symlinks.Components(p) == [""] + cs;
        assert ([""] + cs)[1..] == cs;
      } else {
        assert p == Join(cs);
      }
      assert [] + cs == cs;
    }
  }

  /** CLEANING IS FINAL: it leaves no empty, `.` or `..` segment, and cleaning again changes nothing. */
  lemma CleanIdempotent(p: string)
    ensures AllProper(Parts(Clean(p))) && Parts(Clean(p)) == Parts(p) && Absolute(Clean(p)) == Absolute(p)
    ensures Clean(Clean(p)) == Clean(p)
  {
    PartsProper(p);
    PartsOfRooted(Absolute(p), Parts(p));
  }

  /** Two paths clean to the same string exactly when they are both absolute or both not and leave the
      same segments. */
  lemma SameCleanIff(p: string, q: string)
    ensures Clean(p) == Clean(q) <==> Absolute(p) == Absolute(q) && Parts(p) == Parts(q)
  {
    CleanIdempotent(p);
    CleanIdempotent(q);
  }

  function AfterLastSlash(s: string): string {
    if s == "" then "" else if '/' in s[1..] then AfterLastSlash(s[1..]) else if s[0] == '/' then s[1..] else s
  }

  function Base(p: string): string {
    AfterLastSlash(Clean(p))
  }

  lemma {:induction false} LastOfJoin(cs: seq<string>)
    requires AllProper(cs) && cs != []
    ensures AfterLastSlash(Join(cs)) == cs[|cs| - 1]
    ensures '/' in Join(cs) <==> |cs| > 1
  {
    assert Proper(cs[0]);
    if |cs| == 1 {
      assert '/' !in cs[0] && '/' !in cs[0][1..];
    } else {
      LastOfJoin(cs[1..]);
      SkipTo(cs[0], Join(cs[1..]));
      assert Join(cs)[|cs[0]|] == '/';
    }
  }

  lemma {:induction false} SkipTo(c: string, rest: string)
    requires '/' !in c && !Absolute(rest)
    ensures AfterLastSlash(c + "/" + rest) == AfterLastSlash(rest)
  {
    var s := c + "/" + rest;
    if c == "" {
      assert s[1..] == rest;
      if '/' !in rest && rest != "" { assert '/' !in rest[1..]; }
    } else {
      assert s[1..] == c[1..] + "/" + rest;
      assert s[1..][|c| - 1] == '/';
      SkipTo(c[1..], rest);
    }
  }

  /** The base name is the last segment, or nothing for the root. */
  lemma BaseIsLast(p: string)
    ensures Base(p) == if Parts(p) == [] then "" else Parts(p)[|Parts(p)| - 1]
  {
    PartsProper(p);
    var cs := Parts(p);
    JoinHead(cs);
    if cs == [] {
      if Absolute(p) { assert Clean(p) == "/" && "/"[1..] == ""; }
    } else {
      LastOfJoin(cs);
      if Absolute(p) {
        SkipTo("", Join(cs));
        assert Clean(p) == "" + "/" + Join(cs);
      } else {
        assert Clean(p) == Join(cs);
      }
    }
  }

  // ------------------------------------------------------------ binds

  datatype Bind = Bind(host: string, space: string)

  /** Split at the first colon. */
  function SplitOnce(b: string): Option<Bind> {
    if b == "" then None
    else if b[0] == ':' then Some(Bind("", b[1..]))
    else match SplitOnce(b[1..])
      case None => None
      case Some(r) => Some(Bind([b[0]] + r.host, r.space))
  }

  function SplitBind(b: string): Option<Bind> {
    match SplitOnce(b)
    case None => None
    case Some(r) => if Trim(r.host) == "" || Trim(r.space) == "" then None else Some(r)
  }

  /** The two sides of a bind are what stands before and after its first colon. */
  lemma {:induction false} SplitOnceIff(b: string, host: string, space: string)
    ensures SplitOnce(b) == Some(Bind(host, space)) <==> b == host + ":" + space && ':' !in host
    decreases b
  {
    if b == "" {
      assert |host + ":" + space| > 0;
    } else if b[0] == ':' {
      assert b == [] + ":" + b[1..];
      if b == host + ":" + space && host != "" { assert b[0] == host[0]; }
    } else {
      if host != "" {
        SplitOnceIff(b[1..], host[1..], space);
        assert host == [host[0]] + host[1..];
        assert (host + ":" + space)[1..] == host[1..] + ":" + space;
        if b == host + ":" + space { assert b[0] == host[0]; }
        if b[0] == host[0] && b[1..] == host[1..] + ":" + space { assert b == host + ":" + space; }
        assert ':' in host <==> host[0] == ':' || ':' in host[1..];
      }
    }
  }

  /** A bind is taken apart exactly when neither side is blank. */
  lemma SplitBindIff(b: string, host: string, space: string)
    ensures SplitBind(b) == Some(Bind(host, space)) <==>
      b == host + ":" + space && ':' !in host && !Blank(host) && !Blank(space)
  {
    SplitOnceIff(b, host, space);
    TrimEmptyIffBlank(host);
    TrimEmptyIffBlank(space);
  }

  // ------------------------------------------------------------ the contract

  const MODELS_DIR := "/models"

  predicate DeclOk(raw: string) {
    var decl := Trim(raw);
    Absolute(decl) && Base(decl) != "" && Base(decl) != "." && Base(decl) != ".." && Base(decl) != "/"
  }

  /** Where a declared file lands inside the space. */
  function Landing(raw: string): string {
    MODELS_DIR + "/" + Base(Trim(raw))
  }

  predicate BindsOk(bs: seq<string>) {
    forall k :: 0 <= k < |bs| ==> SplitBind(bs[k]).Some?
  }

  /** Each bind as its cleaned place inside the space and its host path. */
  function Mounts(bs: seq<string>): seq<(string, string)>
    requires BindsOk(bs)
  {
    seq(|bs|, k requires 0 <= k < |bs| => Mount(SplitBind(bs[k]).value))
  }

  function Mount(b: Bind): (string, string) {
    (Clean(b.space), b.host)
  }

  lemma MountsNext(bs: seq<string>, k: nat)
    requires k < |bs| && BindsOk(bs[..k])
    ensures BindsOk(bs[..k + 1]) <==> SplitBind(bs[k]).Some?
    ensures SplitBind(bs[k]).Some? ==> Mounts(bs[..k + 1]) == Mounts(bs[..k]) + [Mount(SplitBind(bs[k]).value)]
  {
    assert bs[..k + 1] == bs[..k] + [bs[k]];
    assert bs[..k + 1][k] == bs[k];
  }

  /** Mount `k` is the only one at `landing`. */
  predicate OnlyAt(ms: seq<(string, string)>, landing: string, k: nat)
    requires k < |ms|
  {
    ms[k].0 == landing && forall l :: 0 <= l < |ms| && l != k ==> ms[l].0 != landing
  }

  /** Exactly one bind is at the declared file's landing, and it mounts that very file. */
  ghost predicate Served(ms: seq<(string, string)>, raw: string) {
    exists k :: 0 <= k < |ms| && OnlyAt(ms, Landing(raw), k) && Clean(ms[k].1) == Clean(Trim(raw))
  }

  function Landings(weights: seq<string>): seq<string> {
    seq(|weights|, k requires 0 <= k < |weights| => Landing(weights[k]))
  }

  predicate Distinct(ls: seq<string>) {
    forall i, j :: 0 <= i < j < |ls| ==> ls[i] != ls[j]
  }

  ghost predicate AllServed(weights: seq<string>, ms: seq<(string, string)>) {
    forall i :: 0 <= i < |weights| ==> WeightOk(weights[i], ms)
  }

  ghost predicate WeightOk(raw: string, ms: seq<(string, string)>) {
    DeclOk(raw) && Served(ms, raw)
  }

  /** All binds are well formed, every declaration is and has its one bind, and no two declarations
      land in the same place. */
  ghost predicate ContractOk(weights: seq<string>, bs: seq<string>) {
    BindsOk(bs) && AllServed(weights, Mounts(bs)) && Distinct(Landings(weights))
  }

  /** THE CONTRACT, spelled out: every bind has a colon with something on either side of the first one; each
      declared file is an absolute path with a name; exactly one bind lands, cleaned, at that name under
      `/models`, and its host is, cleaned, that file; and no two files land in the same place. */
  lemma ContractOutcome(weights: seq<string>, bs: seq<string>)
    ensures ContractOk(weights, bs) <==>
      && (forall b :: b in bs ==> exists h, p :: b == h + ":" + p && ':' !in h && !Blank(h) && !Blank(p))
      && BindsOk(bs)
      && (forall i :: 0 <= i < |weights| ==>
            var decl := Trim(weights[i]);
            && decl != "" && decl[0] == '/' && Base(decl) !in {"", ".", "..", "/"}
            && exists k :: 0 <= k < |bs| && LandsOnce(bs, "/models/" + Base(decl), k)
                         && Clean(SplitBind(bs[k]).value.host) == Clean(decl))
      && (forall i, j :: 0 <= i < j < |weights| ==> Base(Trim(weights[i])) != Base(Trim(weights[j])))
  {
    if BindsOk(bs) {
      forall b | b in bs ensures exists h, p :: b == h + ":" + p && ':' !in h && !Blank(h) && !Blank(p) {
        var r := SplitBind(b).value;
        SplitBindIff(b, r.host, r.space);
      }
      forall i | 0 <= i < |weights| ensures WeightOk(weights[i], Mounts(bs)) <==>
            (var decl := Trim(weights[i]);
            && decl != "" && decl[0] == '/' && Base(decl) !in {"", ".", "..", "/"}
            && exists k :: 0 <= k < |bs| && LandsOnce(bs, "/models/" + Base(decl), k)
                         && Clean(SplitBind(bs[k]).value.host) == Clean(decl))
      {
        WeightSpelled(weights[i], bs);
      }
      LandingsDiffer(weights);
    }
  }

  /** The k-th bind, and no other, lands there. */
  predicate LandsOnce(bs: seq<string>, landing: string, k: nat)
    requires BindsOk(bs) && k < |bs|
  {
    forall l :: 0 <= l < |bs| ==> (Clean(SplitBind(bs[l]).value.space) == landing <==> l == k)
  }

  lemma LandingIs(raw: string)
    ensures Landing(raw) == "/models/" + Base(Trim(raw))
  {
    assert "/models" + "/" == "/models/";
  }

  lemma WeightSpelled(raw: string, bs: seq<string>)
    requires BindsOk(bs)
    ensures WeightOk(raw, Mounts(bs)) <==>
      var decl := Trim(raw);
      && decl != "" && decl[0] == '/' && Base(decl) !in {"", ".", "..", "/"}
      && exists k :: 0 <= k < |bs| && LandsOnce(bs, "/models/" + Base(decl), k)
                   && Clean(SplitBind(bs[k]).value.host) == Clean(decl)
  {
    var ms, decl := Mounts(bs), Trim(raw);
    LandingIs(raw);
    forall k | 0 <= k < |bs| ensures OnlyAt(ms, Landing(raw), k) <==> LandsOnce(bs, "/models/" + Base(decl), k) {
      if LandsOnce(bs, "/models/" + Base(decl), k) { assert ms[k].0 == Landing(raw); }
      if OnlyAt(ms, Landing(raw), k) {
        forall l | 0 <= l < |bs| ensures Clean(SplitBind(bs[l]).value.space) == Landing(raw) <==> l == k {
          assert ms[l].0 == Clean(SplitBind(bs[l]).value.space);
        }
      }
    }
  }

  lemma LandingsDiffer(weights: seq<string>)
    ensures Distinct(Landings(weights)) <==>
      forall i, j :: 0 <= i < j < |weights| ==> Base(Trim(weights[i])) != Base(Trim(weights[j]))
  {
    forall i, j | 0 <= i < j < |weights|
      ensures Landings(weights)[i] == Landings(weights)[j] <==> Base(Trim(weights[i])) == Base(Trim(weights[j]))
    {
      LandingIs(weights[i]);
      LandingIs(weights[j]);
      SameTail("/models/", Base(Trim(weights[i])), Base(Trim(weights[j])));
    }
  }

  lemma SameTail(a: string, b: string, c: string)
    ensures a + b == a + c <==> b == c
  {
    assert (a + b)[|a|..] == b && (a + c)[|a|..] == c;
  }

  /** The hosts mounted at a landing, in order. */
  function HostsAt(ms: seq<(string, string)>, landing: string): seq<string> {
    if ms == [] then []
    else
      var n := |ms| - 1;
      HostsAt(ms[..n], landing) + if ms[n].0 == landing then [ms[n].1] else []
  }

  lemma {:induction false} NoHost(ms: seq<(string, string)>, landing: string)
    ensures HostsAt(ms, landing) == [] <==> forall l :: 0 <= l < |ms| ==> ms[l].0 != landing
  {
    if ms != [] {
      var n := |ms| - 1;
      NoHost(ms[..n], landing);
      assert forall l :: 0 <= l < n ==> ms[..n][l] == ms[l];
    }
  }

  lemma {:induction false} OneHost(ms: seq<(string, string)>, landing: string) returns (k: nat)
    requires |HostsAt(ms, landing)| == 1
    ensures k < |ms| && OnlyAt(ms, landing, k) && HostsAt(ms, landing) == [ms[k].1]
  {
    var n := |ms| - 1;
    NoHost(ms[..n], landing);
    assert forall l :: 0 <= l < n ==> ms[..n][l] == ms[l];
    if ms[n].0 == landing {
      k := n;
    } else {
      k := OneHost(ms[..n], landing);
    }
  }

  lemma {:induction false} OnlyHost(ms: seq<(string, string)>, landing: string, k: nat)
    requires k < |ms| && OnlyAt(ms, landing, k)
    ensures HostsAt(ms, landing) == [ms[k].1]
  {
    var n := |ms| - 1;
    assert forall l :: 0 <= l < n ==> ms[..n][l] == ms[l];
    if k == n {
      NoHost(ms[..n], landing);
    } else {
      OnlyHost(ms[..n], landing, k);
    }
  }

  /** Counting the hosts at a landing decides whether the declared file is served. */
  lemma ServedIff(ms: seq<(string, string)>, raw: string)
    ensures var hosts := HostsAt(ms, Landing(raw));
      Served(ms, raw) <==> |hosts| == 1 && Clean(hosts[0]) == Clean(Trim(raw))
  {
    var hosts := HostsAt(ms, Landing(raw));
    if |hosts| == 1 { var k := OneHost(ms, Landing(raw)); }
    if Served(ms, raw) {
      var k :| 0 <= k < |ms| && OnlyAt(ms, Landing(raw), k) && Clean(ms[k].1) == Clean(Trim(raw));
      OnlyHost(ms, Landing(raw), k);
    }
  }

  /** The hosts at a landing, as the map built so far has them. */
  ghost predicate Listed(at: map<string, seq<string>>, ms: seq<(string, string)>) {
    forall l :: HostsAt(ms, l) == if l in at then at[l] else []
  }

  lemma ListedNext(at: map<string, seq<string>>, ms: seq<(string, string)>, landing: string, host: string)
    requires Listed(at, ms)
    ensures Listed(at[landing := (if landing in at then at[landing] else []) + [host]], ms + [(landing, host)])
  {
    assert (ms + [(landing, host)])[..|ms|] == ms;
  }

  /** Hosts by cleaned landing; none when a bind is malformed. */
  method BoundAt(bs: seq<string>) returns (bound: Option<map<string, seq<string>>>)
    ensures bound.Some? <==> BindsOk(bs)
    ensures bound.Some? ==> Listed(bound.value, Mounts(bs))
  {
    var at: map<string, seq<string>> := map[];
    for k := 0 to |bs|
      invariant BindsOk(bs[..k])
      invariant Listed(at, Mounts(bs[..k]))
    {
      MountsNext(bs, k);
      var b := SplitBind(bs[k]);
      if b.None? { assert bs[k] in bs; return None; }
      var landing := CleanPath(b.value.space);
      ListedNext(at, Mounts(bs[..k]), landing, b.value.host);
      at := at[landing := (if landing in at then at[landing] else []) + [b.value.host]];
    }
    assert bs[..|bs|] == bs;
    bound := Some(at);
  }

  /** One declaration against the map: well formed, and its landing's only host is the file itself. */
  method CheckWeight(raw: string, bound: map<string, seq<string>>, ghost ms: seq<(string, string)>)
    returns (ok: bool, landing: string)
    requires Listed(bound, ms)
    ensures ok <==> WeightOk(raw, ms)
    ensures landing == Landing(raw)
  {
    ServedIff(ms, raw);
    var decl := Trim(raw);
    var base := Base(decl);
    landing := MODELS_DIR + "/" + base;
    if decl == "" || decl[0] != '/' || base == "" || base == "." || base == ".." || base == "/" { return false, landing; }
    var hosts := if landing in bound then bound[landing] else [];
    if |hosts| != 1 { return false, landing; }
    var host := CleanPath(hosts[0]);
    var declared := CleanPath(decl);
    ok := host == declared;
  }

  /** validate_weight_files accepts exactly the contracts that hold. */
  method ValidateWeightFiles(weights: seq<string>, bs: seq<string>) returns (ok: bool)
    ensures ok <==> weights == [] || ContractOk(weights, bs)
  {
    if weights == [] { return true; }
    var bound := BoundAt(bs);
    if bound.None? { return false; }
    ghost var ms := Mounts(bs);
    var seen: set<string> := {};
    for i := 0 to |weights|
      invariant AllServed(weights[..i], ms) && Distinct(Landings(weights[..i]))
      invariant forall l :: l in seen <==> l in Landings(weights[..i])
    {
      var fine, landing := CheckWeight(weights[i], bound.value, ms);
      OneMore(weights, i, ms);
      if landing in seen { return false; }
      if !fine { return false; }
      seen := seen + {landing};
    }
    assert weights[..|weights|] == weights;
    ok := true;
  }

  /** What the next declaration adds, and what it spoils for good. */
  lemma OneMore(weights: seq<string>, i: nat, ms: seq<(string, string)>)
    requires i < |weights|
    ensures Landings(weights[..i + 1]) == Landings(weights[..i]) + [Landing(weights[i])]
    ensures AllServed(weights[..i], ms) && WeightOk(weights[i], ms) ==> AllServed(weights[..i + 1], ms)
    ensures !WeightOk(weights[i], ms) ==> !AllServed(weights, ms)
    ensures Distinct(Landings(weights[..i])) && Landing(weights[i]) !in Landings(weights[..i]) ==> Distinct(Landings(weights[..i + 1]))
    ensures Landing(weights[i]) in Landings(weights[..i]) ==> !Distinct(Landings(weights))
  {
    assert weights[..i + 1] == weights[..i] + [weights[i]];
    if Landing(weights[i]) in Landings(weights[..i]) {
      var j :| 0 <= j < i && Landings(weights[..i])[j] == Landing(weights[i]);
      assert Landings(weights)[j] == Landings(weights)[i];
    }
  }
}

/** Merging an engine's start arguments: the egg's own settings win, the adapter fills the gaps. */
module ArgvMerge {
  import opened Wrappers

  /** A flag with its values, or a positional token on its own. */
  datatype Item = Item(key: string, tokens: seq<string>)

  predicate IsFlag(tok: string) {
    tok != "" && tok[0] == '-'
  }

  /** The position of the first `=`, or the length. */
  function Equals(s: string): (n: nat)
    ensures n <= |s|
  {
    if s == "" || s[0] == '=' then 0 else 1 + Equals(s[1..])
  }

  function Alias(key: string): string {
    if key == "--mmproj" then "-mm" else if key == "--parallel" then "-np" else key
  }

  /** `--foo=bar` is keyed `--foo`, and two spellings of one flag share a key. */
  function Key(tok: string): string {
    var n := Equals(tok);
    Alias(if IsFlag(tok) && 0 < n < |tok| then tok[..n] else tok)
  }

  lemma {:induction false} EqualsAt(stem: string, rest: string)
    requires '=' !in stem
    ensures Equals(stem) == |stem| && Equals(stem + "=" + rest) == |stem|
  {
    if stem == "" {
      assert stem + "=" + rest == "=" + rest;
    } else {
      assert (stem + "=" + rest)[1..] == stem[1..] + "=" + rest;
      EqualsAt(stem[1..], rest);
    }
  }

  /** WHAT A FLAG IS KEYED BY: its name, written with or without a value; two names have a short form. */
  lemma KeyOutcome(stem: string, rest: string)
    requires stem != "" && stem[0] as int == 0x2D && '=' !in stem
    ensures Key(stem) == Key(stem + "=" + rest)
         == if stem == "--mmproj" then "-mm" else if stem == "--parallel" then "-np" else stem
  {
    EqualsAt(stem, rest);
    assert (stem + "=" + rest)[..|stem|] == stem;
  }

  // ------------------------------------------------------------ splitting

  /** How many tokens before the next flag. */
  function Values(args: seq<string>): (n: nat)
    ensures n <= |args|
  {
    if args == [] || IsFlag(args[0]) then 0 else 1 + Values(args[1..])
  }

  lemma {:induction false} ValuesExact(args: seq<string>)
    ensures forall k :: 0 <= k < Values(args) ==> !IsFlag(args[k])
    ensures Values(args) < |args| ==> IsFlag(args[Values(args)])
  {
    if args != [] && !IsFlag(args[0]) { ValuesExact(args[1..]); }
  }

  function FirstItem(args: seq<string>): (it: Item)
    requires args != []
    ensures 0 < |it.tokens| <= |args| && it.tokens == args[..|it.tokens|]
  {
    if IsFlag(args[0]) then Item(Key(args[0]), args[..1 + Values(args[1..])]) else Item(args[0], args[..1])
  }

  function Split(args: seq<string>): seq<Item>
    decreases |args|
  {
    if args == [] then [] else [FirstItem(args)] + Split(args[|FirstItem(args).tokens|..])
  }

  function Flatten(items: seq<Item>): seq<string> {
    if items == [] then [] else items[0].tokens + Flatten(items[1..])
  }

  method SplitArgvItems(args: seq<string>) returns (items: seq<Item>)
    ensures items == Split(args)
  {
    items := [];
    var i := 0;
    SplitEnds(args);
    ghost var all := Split(args);
    while i < |args|
      invariant i <= |args| && all == items + Split(args[i..])
    {
      var item, j := NextItem(args, i);
      SplitNext(args, i, all, items, item);
      items := items + [item];
      i := j;
    }
  }

  lemma SplitEnds(args: seq<string>)
    ensures Split(args[0..]) == Split(args) && Split(args[|args|..]) == []
  {
    assert args[0..] == args;
  }

  lemma SplitNext(args: seq<string>, i: nat, all: seq<Item>, done: seq<Item>, it: Item)
    requires i < |args| && all == done + Split(args[i..]) && it == FirstItem(args[i..])
    ensures i + |it.tokens| <= |args| && all == done + [it] + Split(args[i + |it.tokens|..])
  {
    assert args[i..][|it.tokens|..] == args[i + |it.tokens|..];
    Regroup(done, it, Split(args[i + |it.tokens|..]));
  }

  lemma Regroup(done: seq<Item>, it: Item, rest: seq<Item>)
    ensures done + ([it] + rest) == done + [it] + rest
  {
  }

  method NextItem(args: seq<string>, i: nat) returns (item: Item, j: nat)
    requires i < |args|
    ensures item == FirstItem(args[i..]) && j == i + |item.tokens| <= |args|
  {
    var tok := args[i];
    j := i + 1;
    assert args[i..][1..] == args[i + 1..];
    if !IsFlag(tok) {
      return Item(tok, [tok]), j;
    }
    while j < |args| && !IsFlag(args[j])
      invariant i < j <= |args|
      invariant Values(args[i + 1..]) == j - i - 1 + Values(args[j..])
    {
      assert args[j..][1..] == args[j + 1..];
      j := j + 1;
    }
    assert args[i..][..j - i] == args[i..j];
    item := Item(Key(tok), args[i..j]);
  }

  /** Splitting loses nothing: put back together, any argv is what it was. */
  lemma {:induction false} FlattenSplit(args: seq<string>)
    ensures Flatten(Split(args)) == args
    decreases |args|
  {
    if args != [] {
      var n := |FirstItem(args).tokens|;
      FlattenSplit(args[n..]);
      FlattenCons(FirstItem(args), Split(args[n..]));
      assert args[..n] + args[n..] == args;
    }
  }

  lemma FlattenCons(it: Item, items: seq<Item>)
    ensures Flatten([it] + items) == it.tokens + Flatten(items)
  {
    assert ([it] + items)[1..] == items;
  }

  /** A flag, keyed by its own token, with values that are not flags. */
  predicate FlagItem(it: Item) {
    it.tokens != [] && IsFlag(it.tokens[0]) && it.key == Key(it.tokens[0])
    && forall k :: 1 <= k < |it.tokens| ==> !IsFlag(it.tokens[k])
  }

  predicate FlagItems(items: seq<Item>) {
    forall k :: 0 <= k < |items| ==> FlagItem(items[k])
  }

  predicate StartsWithFlag(args: seq<string>) {
    args == [] || IsFlag(args[0])
  }

  /** Only leading tokens can be positional: everything after the first flag belongs to a flag. */
  lemma {:induction false} AllFlagItems(args: seq<string>)
    requires StartsWithFlag(args)
    ensures FlagItems(Split(args))
    decreases |args|
  {
    if args != [] {
      var n := |FirstItem(args).tokens|;
      assert n == 1 + Values(args[1..]);
      ValuesExact(args[1..]);
      if n < |args| { assert args[n..][0] == args[n] == args[1..][n - 1]; }
      AllFlagItems(args[n..]);
      forall k | 1 <= k < n ensures !IsFlag(FirstItem(args).tokens[k]) {
        assert FirstItem(args).tokens[k] == args[1..][k - 1];
      }
    }
  }

  /** WHAT THE ITEMS ARE: of an argv that starts with a flag, one item for each token with a dash in front, in
      order, with the tokens without one that follow it. */
  lemma ItemsAre(args: seq<string>)
    requires args != [] && args[0] != "" && args[0][0] as int == 0x2D
    ensures Flatten(Split(args)) == args
    ensures forall k :: 0 <= k < |Split(args)| ==>
      var it := Split(args)[k];
      && it.tokens != [] && it.tokens[0] != "" && it.tokens[0][0] as int == 0x2D && it.key == Key(it.tokens[0])
      && forall n :: 1 <= n < |it.tokens| ==> it.tokens[n] == "" || it.tokens[n][0] as int != 0x2D
  {
    FlattenSplit(args);
    AllFlagItems(args);
    forall k | 0 <= k < |Split(args)| ensures FlagItem(Split(args)[k]) {
    }
  }

  lemma FlattenHead(items: seq<Item>)
    requires FlagItems(items)
    ensures StartsWithFlag(Flatten(items))
  {
    if items != [] { assert FlagItem(items[0]); }
  }

  lemma {:induction false} ValuesOf(tail: seq<string>, rest: seq<string>)
    requires (forall k :: 0 <= k < |tail| ==> !IsFlag(tail[k])) && StartsWithFlag(rest)
    ensures Values(tail + rest) == |tail|
  {
    if tail == [] {
      assert tail + rest == rest;
    } else {
      assert (tail + rest)[1..] == tail[1..] + rest;
      ValuesOf(tail[1..], rest);
    }
  }

  /** Flag items survive being flattened and split again. */
  lemma {:induction false} SplitFlatten(items: seq<Item>)
    requires FlagItems(items)
    ensures Split(Flatten(items)) == items
  {
    if items != [] {
      var it, rest := items[0], Flatten(items[1..]);
      assert FlagItem(it);
      assert FlagItems(items[1..]);
      FlattenHead(items[1..]);
      ValuesOf(it.tokens[1..], rest);
      var args := it.tokens + rest;
      assert args[1..] == it.tokens[1..] + rest;
      assert args[..|it.tokens|] == it.tokens && args[|it.tokens|..] == rest;
      assert FirstItem(args) == it;
      SplitFlatten(items[1..]);
      assert items == [it] + items[1..];
    }
  }

  // ------------------------------------------------------------ looking a flag up

  /** The last item under a key: the setting that takes effect. */
  function Last(items: seq<Item>, key: string): Option<Item> {
    if items == [] then None
    else if items[|items| - 1].key == key then Some(items[|items| - 1])
    else Last(items[..|items| - 1], key)
  }

  /** Where that item is. */
  function LastIndex(items: seq<Item>, key: string): (n: nat)
    requires Last(items, key).Some?
    ensures n < |items| && items[n].key == key && Last(items, key) == Some(items[n])
    ensures forall k :: n < k < |items| ==> items[k].key != key
  {
    var n := |items| - 1;
    if items[n].key == key then n else LastIndex(items[..n], key)
  }

  lemma {:induction false} LastIs(items: seq<Item>, key: string, n: nat)
    requires n < |items| && items[n].key == key && forall k :: n < k < |items| ==> items[k].key != key
    ensures Last(items, key) == Some(items[n]) && LastIndex(items, key) == n
  {
    if n < |items| - 1 { LastIs(items[..|items| - 1], key, n); }
  }

  lemma {:induction false} NoneIs(items: seq<Item>, key: string)
    ensures Last(items, key) == None <==> forall k :: 0 <= k < |items| ==> items[k].key != key
  {
    if items != [] {
      var n := |items| - 1;
      NoneIs(items[..n], key);
      assert forall k :: 0 <= k < n ==> items[..n][k] == items[k];
    }
  }

  // ------------------------------------------------------------ merging

  /** One of the egg's items: in place of the effective one under its key, or at the end. */
  function Put(out: seq<Item>, it: Item): seq<Item> {
    if Last(out, it.key).Some? then out[LastIndex(out, it.key) := it] else out + [it]
  }

  function PutAll(out: seq<Item>, items: seq<Item>): seq<Item> {
    if items == [] then out else Put(PutAll(out, items[..|items| - 1]), items[|items| - 1])
  }

  lemma PutLast(out: seq<Item>, it: Item, key: string)
    ensures Last(Put(out, it), key) == if key == it.key then Some(it) else Last(out, key)
    ensures Last(Put(out, it), it.key) == Some(it)
    ensures Last(out, key).Some? && key != it.key ==> LastIndex(Put(out, it), key) == LastIndex(out, key)
    ensures Last(out, it.key).Some? ==> LastIndex(Put(out, it), it.key) == LastIndex(out, it.key)
    ensures Last(out, it.key).None? ==> LastIndex(Put(out, it), it.key) == |out|
  {
    var put := Put(out, it);
    if Last(out, it.key).Some? {
      LastIs(put, it.key, LastIndex(out, it.key));
    } else {
      LastIs(put, it.key, |out|);
    }
    if key != it.key {
      if Last(out, key).Some? {
        LastIs(put, key, LastIndex(out, key));
      } else {
        NoneIs(out, key);
        NoneIs(put, key);
      }
    }
  }

  /** After the merge a flag has the egg's last setting if the egg sets it, and else the adapter's. */
  lemma {:induction false} PutAllLast(out: seq<Item>, items: seq<Item>, key: string)
    ensures Last(PutAll(out, items), key) == if Last(items, key).Some? then Last(items, key) else Last(out, key)
  {
    if items != [] {
      var n := |items| - 1;
      PutAllLast(out, items[..n], key);
      PutLast(PutAll(out, items[..n]), items[n], key);
    }
  }

  /** The first item under `a` comes before the first one under `b`. */
  ghost predicate Sooner(items: seq<Item>, a: string, b: string) {
    exists n :: 0 <= n < |items| && items[n].key == a && forall k :: 0 <= k <= n ==> items[k].key != b
  }

  /** The places of `out` keep their flags in `put`, and each its own setting unless it is the last one for a flag
      that `items` sets. */
  ghost predicate Kept(out: seq<Item>, put: seq<Item>, items: seq<Item>) {
    |out| <= |put| && forall i :: 0 <= i < |out| ==> KeptAt(out, put, items, i)
  }

  ghost predicate KeptAt(out: seq<Item>, put: seq<Item>, items: seq<Item>, i: nat)
    requires i < |out| <= |put|
  {
    && put[i].key == out[i].key
    && (put[i] == out[i]
        || (Last(items, out[i].key) == Some(put[i]) && forall k :: i < k < |out| ==> out[k].key != out[i].key))
  }

  function Keys(items: seq<Item>): (keys: seq<string>)
    ensures |keys| == |items| && forall i :: 0 <= i < |items| ==> keys[i] == items[i].key
  {
    seq(|items|, i requires 0 <= i < |items| => items[i].key)
  }

  /** From place `n` on the flags of `items` that are new, each once and in their order. */
  ghost predicate Added(keys: seq<string>, n: nat, items: seq<Item>) {
    && (forall i, j :: n <= j < |keys| && 0 <= i < j ==> keys[i] != keys[j])
    && (forall i :: n <= i < |keys| ==> Last(items, keys[i]).Some?)
    && (forall i, j :: n <= i < j < |keys| ==> Sooner(items, keys[i], keys[j]))
  }

  /** WHERE THE ITEMS LAND: the first list's stay where they are, the new flags follow. */
  lemma {:induction false} PutAllOrder(out: seq<Item>, items: seq<Item>)
    ensures Kept(out, PutAll(out, items), items)
    ensures Added(Keys(PutAll(out, items)), |out|, items)
  {
    if items != [] {
      var n := |items| - 1;
      var put := PutAll(out, items[..n]);
      PutAllOrder(out, items[..n]);
      KeptNext(out, put, items, n);
      PutAllLast(out, items[..n], items[n].key);
      AddedNext(put, |out|, items, n);
    }
  }

  lemma KeptNext(out: seq<Item>, put: seq<Item>, items: seq<Item>, n: nat)
    requires n == |items| - 1 && Kept(out, put, items[..n]) && Added(Keys(put), |out|, items[..n])
    ensures Kept(out, Put(put, items[n]), items)
  {
    var it := items[n];
    forall i | 0 <= i < |out| ensures KeptAt(out, Put(put, it), items, i) {
      assert KeptAt(out, put, items[..n], i);
      if Last(put, it.key).Some? {
        var p := LastIndex(put, it.key);
        if p == i {
          forall k | i < k < |out| ensures out[k].key != it.key { assert KeptAt(out, put, items[..n], k); }
        } else if it.key == out[i].key {
          assert i < p < |out|;
          assert KeptAt(out, put, items[..n], p);
        }
      } else {
        NoneIs(put, it.key);
      }
    }
  }

  lemma AddedNext(put: seq<Item>, m: nat, items: seq<Item>, n: nat)
    requires m <= |put| && n == |items| - 1 && Added(Keys(put), m, items[..n])
    requires Last(put, items[n].key).None? ==> Last(items[..n], items[n].key).None?
    ensures Added(Keys(Put(put, items[n])), m, items)
  {
    AddedMore(Keys(put), m, items, n);
    KeysPut(put, items[n]);
    if Last(put, items[n].key).None? { AddedOne(Keys(put), m, items, n); }
  }

  lemma KeysPut(put: seq<Item>, it: Item)
    ensures Keys(Put(put, it)) == if Last(put, it.key).Some? then Keys(put) else Keys(put) + [it.key]
    ensures Last(put, it.key).None? ==> it.key !in Keys(put)
  {
    NoneIs(put, it.key);
  }

  lemma AddedMore(keys: seq<string>, m: nat, items: seq<Item>, n: nat)
    requires n == |items| - 1 && Added(keys, m, items[..n])
    ensures Added(keys, m, items)
  {
    forall i, j | m <= i < j < |keys| ensures Sooner(items, keys[i], keys[j]) {
      SoonerMore(items, n, keys[i], keys[j]);
    }
  }

  lemma AddedOne(keys: seq<string>, m: nat, items: seq<Item>, n: nat)
    requires m <= |keys| && n == |items| - 1 && Added(keys, m, items) && Added(keys, m, items[..n])
    requires items[n].key !in keys && Last(items[..n], items[n].key).None?
    ensures Added(keys + [items[n].key], m, items)
  {
    forall i | m <= i < |keys| ensures Sooner(items, keys[i], items[n].key) {
      SoonerThanLast(items, n, keys[i]);
    }
  }

  lemma SoonerMore(items: seq<Item>, n: nat, a: string, b: string)
    requires n <= |items| && Sooner(items[..n], a, b)
    ensures Sooner(items, a, b)
  {
    var m :| 0 <= m < n && items[..n][m].key == a && forall k :: 0 <= k <= m ==> items[..n][k].key != b;
    assert items[m].key == a;
    forall k | 0 <= k <= m ensures items[k].key != b { assert items[..n][k].key != b; }
  }

  lemma SoonerThanLast(items: seq<Item>, n: nat, a: string)
    requires items != [] && n == |items| - 1
    requires Last(items[..n], a).Some? && Last(items[..n], items[n].key).None?
    ensures Sooner(items, a, items[n].key)
  {
    var m := LastIndex(items[..n], a);
    assert items[m].key == a;
    NoneIs(items[..n], items[n].key);
    forall k | 0 <= k <= m ensures items[k].key != items[n].key { assert items[..n][k] == items[k]; }
  }

  function Without(items: seq<Item>, key: string): seq<Item> {
    if items == [] then []
    else if items[0].key == key then Without(items[1..], key) else [items[0]] + Without(items[1..], key)
  }

  /** What is taken out: every item under the key, however often, and no other. */
  lemma {:induction false} WithoutExact(items: seq<Item>, key: string, it: Item)
    ensures multiset(Without(items, key))[it] == if it.key == key then 0 else multiset(items)[it]
  {
    if items != [] {
      WithoutExact(items[1..], key, it);
      assert items == [items[0]] + items[1..];
    }
  }

  method DropFlagItems(args: seq<string>, key: string) returns (out: seq<string>)
    ensures out == Flatten(Without(Split(args), key))
  {
    var items := SplitArgvItems(args);
    out := [];
    assert items[0..] == items;
    for k := 0 to |items|
      invariant Flatten(Without(items, key)) == out + Flatten(Without(items[k..], key))
    {
      assert items[k..][1..] == items[k + 1..];
      if items[k].key != key {
        assert ([items[k]] + Without(items[k + 1..], key))[1..] == Without(items[k + 1..], key);
        out := out + items[k].tokens;
      }
    }
    assert items[|items|..] == [];
  }

  ghost predicate DeclaresSlots(args: seq<string>) {
    exists k :: 0 <= k < |args| && Key(args[k]) == "-np"
  }

  method HasExplicitNp(args: seq<string>) returns (has: bool)
    ensures has <==> DeclaresSlots(args)
  {
    for k := 0 to |args|
      invariant forall j :: 0 <= j < k ==> Key(args[j]) != "-np"
    {
      if Key(args[k]) == "-np" { return true; }
    }
    has := false;
  }

  /** The adapter's items that take part: without its slot count when the egg declares none. */
  ghost function Base(adapter: seq<string>, egg: seq<string>): seq<Item> {
    if DeclaresSlots(egg) then Split(adapter) else Split(Flatten(Without(Split(adapter), "-np")))
  }

  ghost function Merged(adapter: seq<string>, egg: seq<string>): seq<Item> {
    PutAll(Base(adapter, egg), Split(egg))
  }

  /** The argv that is started: with nothing to merge, the other side as it is. */
  ghost function Merge(adapter: seq<string>, egg: seq<string>): seq<string> {
    if egg == [] then adapter else if adapter == [] then egg else Flatten(Merged(adapter, egg))
  }

  /** The index of the effective item under each key. */
  ghost predicate Indexed(index: map<string, nat>, items: seq<Item>) {
    forall key :: IndexedAt(index, items, key)
  }

  ghost predicate IndexedAt(index: map<string, nat>, items: seq<Item>, key: string) {
    if Last(items, key).Some? then key in index && index[key] == LastIndex(items, key) else key !in index
  }

  method IndexOf(items: seq<Item>) returns (index: map<string, nat>)
    ensures Indexed(index, items)
  {
    index := map[];
    for k := 0 to |items|
      invariant Indexed(index, items[..k])
    {
      assert items[..k + 1][..k] == items[..k];
      ghost var before := index;
      index := index[items[k].key := k];
      ghost var seen := items[..k + 1];
      forall key ensures IndexedAt(index, seen, key) {
        assert IndexedAt(before, items[..k], key);
      }
    }
    assert items[..|items|] == items;
  }

  lemma PutIndexed(index: map<string, nat>, out: seq<Item>, it: Item)
    requires Indexed(index, out)
    ensures it.key in index <==> Last(out, it.key).Some?
    ensures it.key in index ==> index[it.key] == LastIndex(out, it.key) && Indexed(index, Put(out, it))
    ensures it.key !in index ==> Indexed(index[it.key := |out|], Put(out, it))
  {
    assert IndexedAt(index, out, it.key);
    var more := if it.key in index then index else index[it.key := |out|];
    forall key ensures IndexedAt(more, Put(out, it), key) {
      assert IndexedAt(index, out, key);
      PutLast(out, it, key);
    }
  }

  method MergeEngineArgs(adapter: seq<string>, egg: seq<string>) returns (flat: seq<string>)
    ensures flat == Merge(adapter, egg)
    ensures egg == [] ==> flat == adapter
    ensures adapter == [] ==> flat == egg
  {
    if egg == [] { return adapter; }
    if adapter == [] { return egg; }
    var has := HasExplicitNp(egg);
    var base := adapter;
    if !has { base := DropFlagItems(adapter, "-np"); }
    var out := SplitArgvItems(base);
    ghost var start := out;
    var index: map<string, nat> := IndexOf(out);
    var items := SplitArgvItems(egg);
    for k := 0 to |items|
      invariant out == PutAll(start, items[..k]) && Indexed(index, out)
    {
      var it := items[k];
      assert items[..k + 1][..k] == items[..k];
      PutIndexed(index, out, it);
      if it.key in index {
        out := out[index[it.key] := it];
      } else {
        index := index[it.key := |out|];
        out := out + [it];
      }
    }
    assert items[..|items|] == items;
    flat := FlattenAll(out);
  }

  method FlattenAll(items: seq<Item>) returns (flat: seq<string>)
    ensures flat == Flatten(items)
  {
    flat := [];
    assert items[0..] == items;
    for k := 0 to |items|
      invariant Flatten(items) == flat + Flatten(items[k..])
    {
      assert items[k..][1..] == items[k + 1..];
      flat := flat + items[k].tokens;
    }
    assert items[|items|..] == [];
  }

  // ------------------------------------------------------------ what the merge means

  lemma {:induction false} WithoutLast(items: seq<Item>, drop: string, key: string)
    ensures Last(Without(items, drop), key) == if key == drop then None else Last(items, key)
    decreases |items|
  {
    if items != [] {
      WithoutLast(items[1..], drop, key);
      LastOfCons(items[0], items[1..], key);
      assert items == [items[0]] + items[1..];
      if items[0].key != drop { LastOfCons(items[0], Without(items[1..], drop), key); }
    }
  }

  lemma {:induction false} LastOfCons(it: Item, items: seq<Item>, key: string)
    ensures Last([it] + items, key) ==
      if Last(items, key).Some? then Last(items, key) else if it.key == key then Some(it) else None
  {
    if items != [] {
      var n := |items| - 1;
      assert ([it] + items)[..n + 1] == [it] + items[..n];
      LastOfCons(it, items[..n], key);
    } else {
      assert [it] + items == [it] && [it][..0] == [];
    }
  }

  lemma {:induction false} WithoutFlags(items: seq<Item>, key: string)
    requires FlagItems(items)
    ensures FlagItems(Without(items, key))
  {
    if items != [] {
      assert FlagItem(items[0]);
      WithoutFlags(items[1..], key);
    }
  }

  /** In an argv that starts with a flag, a slot count is declared by some token exactly when some
      item is a slot count. */
  lemma {:induction false} SlotsInItems(args: seq<string>)
    requires StartsWithFlag(args)
    ensures DeclaresSlots(args) <==> Last(Split(args), "-np").Some?
    decreases |args|
  {
    if args != [] {
      var it := FirstItem(args);
      var n := |it.tokens|;
      assert n == 1 + Values(args[1..]);
      ValuesExact(args[1..]);
      if n < |args| { assert args[n..][0] == args[n] == args[1..][n - 1]; }
      SlotsInItems(args[n..]);
      LastOfCons(it, Split(args[n..]), "-np");
      assert Split(args) == [it] + Split(args[n..]);
      ValuesAreNotSlots(args, n);
    }
  }

  lemma ValuesAreNotSlots(args: seq<string>, n: nat)
    requires args != [] && n == 1 + Values(args[1..]) && n <= |args|
    ensures DeclaresSlots(args) <==> Key(args[0]) == "-np" || DeclaresSlots(args[n..])
  {
    ValuesExact(args[1..]);
    forall k | 1 <= k < n ensures Key(args[k]) != "-np" {
      assert args[k] == args[1..][k - 1];
      PlainKey(args[k]);
    }
    if DeclaresSlots(args) {
      var k :| 0 <= k < |args| && Key(args[k]) == "-np";
      if k >= n { assert args[n..][k - n] == args[k]; }
    }
    if DeclaresSlots(args[n..]) {
      var k :| 0 <= k < |args[n..]| && Key(args[n..][k]) == "-np";
      assert args[n + k] == args[n..][k];
    }
  }

  lemma PlainKey(tok: string)
    requires !IsFlag(tok)
    ensures Key(tok) != "-np"
  {
    assert tok != "--mmproj" && tok != "--parallel" && tok != "-np" by {
      assert IsFlag("--mmproj") && IsFlag("--parallel") && IsFlag("-np");
    }
  }

  /** Positional tokens, one each, and flags after them: the shape every split argv has. */
  predicate PlainThenFlags(items: seq<Item>) {
    items == [] || FlagItems(items)
    || (!IsFlag(items[0].key) && items[0].tokens == [items[0].key] && PlainThenFlags(items[1..]))
  }

  lemma {:induction false} SplitShape(args: seq<string>)
    ensures PlainThenFlags(Split(args))
    decreases |args|
  {
    if args != [] {
      if IsFlag(args[0]) {
        AllFlagItems(args);
      } else {
        assert args[..1] == [args[0]];
        SplitShape(args[1..]);
        assert Split(args)[1..] == Split(args[1..]);
      }
    }
  }

  lemma {:induction false} WithoutShape(items: seq<Item>, key: string)
    requires PlainThenFlags(items)
    ensures PlainThenFlags(Without(items, key))
  {
    if items != [] {
      if FlagItems(items) {
        WithoutFlags(items, key);
      } else {
        WithoutShape(items[1..], key);
        if items[0].key != key { assert Without(items, key)[1..] == Without(items[1..], key); }
      }
    }
  }

  /** Whatever was split, taking a flag out and splitting again finds the same items. */
  lemma {:induction false} SplitAgain(items: seq<Item>)
    requires PlainThenFlags(items)
    ensures Split(Flatten(items)) == items
  {
    if FlagItems(items) {
      SplitFlatten(items);
    } else {
      var tok, rest := items[0].key, Flatten(items[1..]);
      SplitAgain(items[1..]);
      assert Flatten(items) == [tok] + rest;
      assert ([tok] + rest)[..1] == [tok] && ([tok] + rest)[1..] == rest;
      assert FirstItem([tok] + rest) == items[0];
      assert items == [items[0]] + items[1..];
    }
  }

  lemma FlagKey(tok: string)
    requires IsFlag(tok)
    ensures IsFlag(Key(tok))
  {
  }

  lemma PutPast(first: Item, out: seq<Item>, it: Item)
    requires first.key != it.key
    ensures Put([first] + out, it) == [first] + Put(out, it)
  {
    LastOfCons(first, out, it.key);
    if Last(out, it.key).Some? { LastIs([first] + out, it.key, 1 + LastIndex(out, it.key)); }
  }

  /** A flag put among items of that shape replaces a flag or comes last, so the shape stays. */
  lemma {:induction false} PutShape(out: seq<Item>, it: Item)
    requires PlainThenFlags(out) && FlagItem(it)
    ensures PlainThenFlags(Put(out, it))
  {
    if !FlagItems(out) {
      FlagKey(it.tokens[0]);
      assert out == [out[0]] + out[1..];
      PutPast(out[0], out[1..], it);
      PutShape(out[1..], it);
      assert Put(out, it)[1..] == Put(out[1..], it);
    }
  }

  lemma {:induction false} PutAllShape(out: seq<Item>, items: seq<Item>)
    requires PlainThenFlags(out) && FlagItems(items)
    ensures PlainThenFlags(PutAll(out, items))
  {
    if items != [] {
      var n := |items| - 1;
      assert FlagItem(items[n]);
      PutAllShape(out, items[..n]);
      PutShape(PutAll(out, items[..n]), items[n]);
    }
  }

  lemma BaseIs(adapter: seq<string>, egg: seq<string>)
    ensures Base(adapter, egg) == if DeclaresSlots(egg) then Split(adapter) else Without(Split(adapter), "-np")
    ensures PlainThenFlags(Base(adapter, egg))
  {
    SplitShape(adapter);
    WithoutShape(Split(adapter), "-np");
    SplitAgain(Without(Split(adapter), "-np"));
  }

  lemma MergedSplits(adapter: seq<string>, egg: seq<string>)
    requires StartsWithFlag(egg)
    ensures Split(Flatten(Merged(adapter, egg))) == Merged(adapter, egg)
  {
    BaseIs(adapter, egg);
    AllFlagItems(egg);
    PutAllShape(Base(adapter, egg), Split(egg));
    SplitAgain(Merged(adapter, egg));
  }

  /** THE MERGE: read back from the argv that is started, any flag has the egg's last setting if it has
      one, nothing if it is a slot count the egg does not declare, and the adapter's otherwise; an egg
      without settings leaves the adapter's argv alone. */
  lemma MergeMeaning(adapter: seq<string>, egg: seq<string>, key: string)
    requires StartsWithFlag(egg)
    ensures Last(Split(Merge(adapter, egg)), key) ==
      if Last(Split(egg), key).Some? then Last(Split(egg), key)
      else if key == "-np" && egg != [] then None
      else Last(Split(adapter), key)
  {
    if adapter != [] && egg != [] {
      MergedSplits(adapter, egg);
      BaseIs(adapter, egg);
      SlotsInItems(egg);
      WithoutLast(Split(adapter), "-np", key);
      PutAllLast(Base(adapter, egg), Split(egg), key);
    }
  }

  lemma {:induction false} WithoutFrom(items: seq<Item>, key: string, k: nat) returns (n: nat)
    requires k < |Without(items, key)|
    ensures n < |items| && items[n] == Without(items, key)[k]
  {
    if items[0].key == key {
      n := WithoutFrom(items[1..], key, k);
      n := n + 1;
    } else if k == 0 {
      n := 0;
    } else {
      n := WithoutFrom(items[1..], key, k - 1);
      n := n + 1;
    }
  }

  lemma {:induction false} WithoutUnique(items: seq<Item>, key: string)
    requires UniqueItems(items)
    ensures UniqueItems(Without(items, key))
  {
    if items != [] {
      WithoutUnique(items[1..], key);
      if items[0].key != key {
        var rest := Without(items[1..], key);
        forall k | 0 <= k < |rest| ensures rest[k].key != items[0].key {
          var n := WithoutFrom(items[1..], key, k);
          assert items[n + 1] == rest[k];
        }
      }
    }
  }

  lemma {:induction false} PutAllUnique(out: seq<Item>, items: seq<Item>)
    requires UniqueItems(out)
    ensures UniqueItems(PutAll(out, items))
  {
    if items != [] {
      var n := |items| - 1;
      PutAllUnique(out, items[..n]);
      NoneIs(PutAll(out, items[..n]), items[n].key);
    }
  }

  /** What is merged has no flag twice when the adapter has none twice, whatever the egg sets. */
  lemma MergeKeepsUnique(adapter: seq<string>, egg: seq<string>)
    requires UniqueItems(Split(adapter))
    ensures UniqueItems(Merged(adapter, egg))
  {
    BaseIs(adapter, egg);
    WithoutUnique(Split(adapter), "-np");
    PutAllUnique(Base(adapter, egg), Split(egg));
  }

  /** Nor has the argv that is started, except when there is no adapter to merge with and the egg sets
      one twice. */
  lemma MergeUniqueIff(adapter: seq<string>, egg: seq<string>)
    requires UniqueItems(Split(adapter)) && StartsWithFlag(egg)
    ensures UniqueItems(Split(Merge(adapter, egg))) <==> adapter != [] || UniqueItems(Split(egg))
  {
    MergedSplits(adapter, egg);
    MergeKeepsUnique(adapter, egg);
  }

  /** THE ORDER OF THE MERGE: the adapter's items stay in their places, an egg's setting in place of the adapter's
      last one for the flag; the egg's other flags follow, each once and in the egg's order. */
  lemma MergeOrder(adapter: seq<string>, egg: seq<string>)
    ensures Kept(Base(adapter, egg), Merged(adapter, egg), Split(egg))
    ensures Added(Keys(Merged(adapter, egg)), |Base(adapter, egg)|, Split(egg))
  {
    PutAllOrder(Base(adapter, egg), Split(egg));
  }

  predicate UniqueItems(items: seq<Item>) {
    forall j, k :: 0 <= j < k < |items| ==> items[j].key != items[k].key
  }
}

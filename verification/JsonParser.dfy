/** The parser as it runs: a cursor over the characters, moved by methods in loops. */
module JsonParser {
  import opened Wrappers
  import opened Json
  import opened JsonGrammar

  class Parser {
    const c: string
    var i: nat

    ghost predicate Valid()
      reads this
    {
      i <= |c|
    }

    /** What is still to be read. */
    ghost function Rest(): string
      reads this
      requires Valid()
    {
      c[i..]
    }

    constructor (text: string)
      ensures Valid() && c == text && i == 0
    {
      c := text;
      i := 0;
    }

    predicate Peek(ch: char)
      reads this
      requires Valid()
      ensures Peek(ch) <==> At(Rest(), ch)
    {
      i < |c| && c[i] == ch
    }

    method Accept(ch: char) returns (ok: bool)
      requires Valid()
      modifies this`i
      ensures Valid()
      ensures ok <==> At(old(Rest()), ch)
      ensures Rest() == if ok then old(Rest())[1..] else old(Rest())
    {
      ok := Peek(ch);
      if ok {
        assert Rest()[1..] == c[i + 1..];
        i := i + 1;
      }
    }

    method SkipBlanks()
      requires Valid()
      modifies this`i
      ensures Valid() && Rest() == SkipWs(old(Rest()))
    {
      while i < |c| && (c[i] == ' ' || c[i] == '\t' || c[i] == '\n' || c[i] == '\r')
        invariant Valid() && SkipWs(Rest()) == SkipWs(old(Rest()))
      {
        assert Rest()[1..] == c[i + 1..];
        i := i + 1;
      }
    }

    method Literal(word: string) returns (ok: bool)
      requires Valid() && word != ""
      modifies this`i
      ensures Valid()
      ensures ok <==> word <= old(Rest())
      ensures ok ==> Rest() == old(Rest())[|word|..]
    {
      ghost var start := i;
      for k := 0 to |word|
        invariant Valid() && i == start + k && word[..k] <= old(Rest())
      {
        if i >= |c| || c[i] != word[k] { return false; }
        assert word[..k + 1] == word[..k] + [word[k]];
        i := i + 1;
      }
      ok := true;
    }

    /** Four hexadecimal digits after `\\u`. */
    method Unicode() returns (ch: Option<char>)
      requires Valid() && i >= 2
      modifies this`i
      ensures Valid()
      ensures var s := old(Rest());
        && (ch.Some? <==> |s| >= 4 && IsHex(s[0]) && IsHex(s[1]) && IsHex(s[2]) && IsHex(s[3])
                           && !Surrogate(Code(s[0], s[1], s[2], s[3])))
        && (ch.Some? ==> ch.value == Code(s[0], s[1], s[2], s[3]) as char && Rest() == s[4..])
    {
      ghost var s := Rest();
      var code: nat := 0;
      for k := 0 to 4
        invariant Valid() && i == old(i) + k && Rest() == s[k..] && |s| >= k
        invariant forall j :: 0 <= j < k ==> IsHex(s[j])
        invariant k == 0 ==> code == 0
        invariant k == 1 ==> code == HexValue(s[0])
        invariant k == 2 ==> code == HexValue(s[0]) * 16 + HexValue(s[1])
        invariant k == 3 ==> code == (HexValue(s[0]) * 16 + HexValue(s[1])) * 16 + HexValue(s[2])
        invariant k == 4 ==> code == Code(s[0], s[1], s[2], s[3])
      {
        if i >= |c| || !IsHex(c[i]) { return None; }
        assert c[i] == s[k];
        code := code * 16 + HexValue(c[i]);
        i := i + 1;
      }
      ch := if Surrogate(code) then None else Some(code as char);
    }

    /** One character of a literal that is not its closing quote. */
    method Char() returns (ch: Option<char>)
      requires Valid() && Rest() != "" && Rest()[0] != '"'
      modifies this`i
      ensures Valid()
      ensures ch.Some? <==> ParsePiece(old(Rest())).Some?
      ensures ch.Some? ==> ch.value == PieceChar(ParsePiece(old(Rest())).value.0)
                           && Rest() == ParsePiece(old(Rest())).value.1
    {
      ghost var s := Rest();
      var h := c[i];
      i := i + 1;
      if h != '\\' {
        return if h as int < 0x20 then None else Some(h);
      }
      if i >= |c| { return None; }
      var e := c[i];
      assert e == s[1];
      i := i + 1;
      assert Rest() == s[2..];
      if IsShort(e) { return Some(ShortChar(e)); }
      if e != 'u' { return None; }
      ch := Unicode();
    }

    method String() returns (out: Option<string>)
      requires Valid()
      modifies this`i
      ensures Valid()
      ensures out.Some? <==> ParseString(old(Rest())).Some?
      ensures out.Some? ==> out.value == Content(ParseString(old(Rest())).value.0)
                            && Rest() == ParseString(old(Rest())).value.1
    {
      if !Peek('"') { return None; }
      ghost var s := Rest();
      i := i + 1;
      assert Rest() == s[1..];
      var text := "";
      while true
        invariant Valid()
        invariant ParsePieces(s[1..]).Some? <==> ParsePieces(Rest()).Some?
        invariant ParsePieces(Rest()).Some? ==>
          && ParsePieces(s[1..]).value.1 == ParsePieces(Rest()).value.1
          && Content(ParsePieces(s[1..]).value.0) == text + Content(ParsePieces(Rest()).value.0)
        decreases |c| - i
      {
        if i >= |c| { return None; }
        if c[i] == '"' {
          assert Rest()[1..] == c[i + 1..];
          i := i + 1;
          return Some(text);
        }
        ghost var r := Rest();
        var ch := Char();
        if ch.None? { return None; }
        if ParsePieces(Rest()).Some? { ContentCons(ParsePiece(r).value.0, ParsePieces(Rest()).value.0, text); }
        text := text + [ch.value];
      }
    }

    method Digits() returns (digits: string)
      requires Valid()
      modifies this`i
      ensures Valid() && Rest() == SkipDigits(old(Rest())) && digits == TakeDigits(old(Rest()))
    {
      ghost var body := Rest();
      digits := "";
      Nothing(TakeDigits(body));
      while i < |c| && IsDigit(c[i])
        invariant Valid()
        invariant TakeDigits(body) == digits + TakeDigits(Rest()) && SkipDigits(body) == SkipDigits(Rest())
      {
        assert Rest()[1..] == c[i + 1..];
        assert digits + ([c[i]] + TakeDigits(c[i + 1..])) == (digits + [c[i]]) + TakeDigits(c[i + 1..]);
        digits := digits + [c[i]];
        i := i + 1;
      }
      Nothing(digits);
    }

    method Number() returns (v: Option<Value>)
      requires Valid()
      modifies this`i
      ensures Valid()
      ensures v.Some? <==> ParseNumber(old(Rest())).Some?
      ensures v.Some? ==> v.value == Meaning(ParseNumber(old(Rest())).value.0) && Rest() == ParseNumber(old(Rest())).value.1
    {
      var neg := Peek('-');
      ghost var s := Rest();
      if neg { i := i + 1; }
      ghost var body := Rest();
      assert body == if neg then s[1..] else s;
      var digits := Digits();
      if digits == "" || Peek('.') || Peek('e') || Peek('E') { return None; }
      var n := Json.Number(neg, digits);
      v := if MIN_INT <= n <= MAX_INT then Some(Int(n)) else None;
    }

    method One() returns (v: Option<Value>)
      requires Valid()
      modifies this`i
      ensures Valid()
      ensures v.Some? <==> ParseValue(old(Rest())).Some?
      ensures v.Some? ==> v.value == Meaning(ParseValue(old(Rest())).value.0) && Rest() == ParseValue(old(Rest())).value.1
      decreases |c| - i, 1
    {
      if i >= |c| { return None; }
      ghost var s := Rest();
      var ch := c[i];
      assert ch == s[0];
      if ch == '{' {
        v := Object();
      } else if ch == '[' {
        v := Array();
      } else if ch == '"' {
        var t := String();
        v := if t.Some? then Some(Str(t.value)) else None;
      } else if ch == 't' {
        var ok := Literal("true");
        v := if ok then Some(Bool(true)) else None;
      } else if ch == 'f' {
        var ok := Literal("false");
        v := if ok then Some(Bool(false)) else None;
      } else if ch == 'n' {
        var ok := Literal("null");
        v := if ok then Some(Null) else None;
      } else if ch == '-' || IsDigit(ch) {
        v := Number();
      } else {
        v := None;
      }
    }

    method Array() returns (v: Option<Value>)
      requires Valid() && Peek('[')
      modifies this`i
      ensures Valid()
      ensures v.Some? <==> ParseArray(old(Rest())[1..]).Some?
      ensures v.Some? ==> v.value == Meaning(ParseArray(old(Rest())[1..]).value.0)
                          && Rest() == ParseArray(old(Rest())[1..]).value.1
      decreases |c| - i, 0
    {
      ghost var s := Rest()[1..];
      var entered := Accept('[');
      SkipBlanks();
      TakeWsOk(s);
      var closed := Accept(']');
      if closed { return Some(Arr([])); }
      v := Items(TakeWs(s));
    }

    method Items(ghost blanks: string) returns (v: Option<Value>)
      requires Valid() && AllWs(blanks)
      modifies this`i
      ensures Valid()
      ensures v.Some? <==> ParseItems(blanks, old(Rest())).Some?
      ensures v.Some? ==> v.value == Arr(ItemsMeaning(ParseItems(blanks, old(Rest())).value.0))
                          && Rest() == ParseItems(blanks, old(Rest())).value.1
      decreases |c| - i, 3
    {
      ghost var goal := ParseItems(blanks, Rest());
      ghost var pre := blanks;
      ghost var done: seq<Item> := [];
      var vs: seq<Value> := [];
      AfterNone(goal);
      while true
        invariant Valid() && i >= old(i) && AllWs(pre) && ItemsOk(done) && vs == ItemsMeaning(done)
        invariant goal == AfterItems(done, ParseItems(pre, Rest()))
        decreases |c| - i
      {
        var one;
        ghost var item;
        one, item := OneItem(pre);
        if one.None? { return None; }
        ItemsSnoc(done, item);
        vs := vs + [one.value];
        AfterMore(done, item, Rest());
        done, pre := done + [item], "";
        var more := Accept(',');
        if !more {
          var closed := Accept(']');
          return if closed then Some(Arr(vs)) else None;
        }
      }
    }

    /** One value and the blanks around it. */
    method OneItem(ghost pre: string) returns (v: Option<Value>, ghost item: Item)
      requires Valid() && AllWs(pre)
      modifies this`i
      ensures Valid()
      ensures v.None? ==> ParseItems(pre, old(Rest())) == None
      ensures v.Some? ==> ItemsOk([item]) && v.value == Meaning(item.value) && i > old(i)
      ensures v.Some? ==> ParseItems(pre, old(Rest())) == ItemsFrom(item, Rest())
      decreases |c| - i, 2
    {
      ghost var s := Rest();
      item := Item("", CNull, "");
      SkipBlanks();
      v := One();
      if v.None? { return; }
      ghost var after := Rest();
      SkipBlanks();
      TakeWsOk(s);
      TakeWsOk(after);
      item := Item(pre + TakeWs(s), ParseValue(SkipWs(s)).value.0, TakeWs(after));
    }

    method Object() returns (v: Option<Value>)
      requires Valid() && Peek('{')
      modifies this`i
      ensures Valid()
      ensures v.Some? <==> ParseObject(old(Rest())[1..]).Some?
      ensures v.Some? ==> v.value == Meaning(ParseObject(old(Rest())[1..]).value.0)
                          && Rest() == ParseObject(old(Rest())[1..]).value.1
      decreases |c| - i, 0
    {
      ghost var s := Rest()[1..];
      var entered := Accept('{');
      SkipBlanks();
      TakeWsOk(s);
      var closed := Accept('}');
      if closed { return Some(Obj(map[])); }
      v := Members(TakeWs(s));
    }

    /** One key, colon and value, with the blanks around them. */
    method KeyValue(ghost blanks: string) returns (kv: Option<(string, Value)>, ghost m: Member)
      requires Valid() && AllWs(blanks)
      modifies this`i
      ensures Valid()
      ensures kv.None? ==> ParseMember(blanks, old(Rest())) == None
      ensures kv.Some? ==> MembersOk([m], {}) && kv.value == (Content(m.key), Meaning(m.value)) && i > old(i)
      ensures kv.Some? ==> ParseMember(blanks, old(Rest())) == Some((m, Rest()))
      decreases |c| - i, 2
    {
      ghost var s := Rest();
      m := Member("", [], "", "", CNull, "");
      SkipBlanks();
      var k := String();
      if k.None? { return None, m; }
      ghost var s1 := Rest();
      SkipBlanks();
      var colon := Accept(':');
      if !colon { return None, m; }
      ghost var s2 := Rest();
      SkipBlanks();
      var v := One();
      if v.None? { return None, m; }
      m := MemberIs(blanks, s, s1, s2, Rest());
      SkipBlanks();
      kv := Some((k.value, v.value));
    }

    method Members(ghost blanks: string) returns (v: Option<Value>)
      requires Valid() && AllWs(blanks)
      modifies this`i
      ensures Valid()
      ensures v.Some? <==> ParseMembers(blanks, old(Rest()), {}).Some?
      ensures v.Some? ==> v.value == Obj(MembersMeaning(ParseMembers(blanks, old(Rest()), {}).value.0, {}))
                          && Rest() == ParseMembers(blanks, old(Rest()), {}).value.1
      decreases |c| - i, 3
    {
      ghost var goal := ParseMembers(blanks, Rest(), {});
      ghost var pre := blanks;
      ghost var done: seq<Member> := [];
      var fields: map<string, Value> := map[];
      MembersStart(goal, blanks, Rest());
      while true
        invariant Valid() && i >= old(i)
        invariant MembersSoFar(goal, done, pre, Rest(), fields)
        decreases |c| - i
      {
        ghost var s := Rest();
        var kv;
        ghost var m;
        kv, m := KeyValue(pre);
        if kv.None? { return None; }
        MembersNext(goal, done, pre, s, fields, m, Rest());
        if kv.value.0 in fields { return None; }
        fields := fields[kv.value.0 := kv.value.1];
        done, pre := done + [m], "";
        var more := Accept(',');
        if !more {
          var closed := Accept('}');
          return if closed then Some(Obj(fields)) else None;
        }
      }
    }
  }

  /** The members read so far, the object built from them, and what remains to reach the goal. */
  ghost predicate MembersSoFar(goal: Option<(seq<Member>, string)>, done: seq<Member>, pre: string, rest: string,
                               fields: map<string, Value>) {
    && AllWs(pre) && MembersOk(done, {}) && fields == MembersMeaning(done, {})
    && goal == AfterMembers(done, ParseMembers(pre, rest, fields.Keys))
  }

  lemma MembersStart(goal: Option<(seq<Member>, string)>, pre: string, rest: string)
    requires AllWs(pre) && goal == ParseMembers(pre, rest, {})
    ensures MembersSoFar(goal, [], pre, rest, map[])
  {
    AfterNoMembers(goal);
    var none: map<string, Value> := map[];
    assert none.Keys == {};
  }

  lemma MembersNext(goal: Option<(seq<Member>, string)>, done: seq<Member>, pre: string, s: string,
                    fields: map<string, Value>, m: Member, next: string)
    requires MembersSoFar(goal, done, pre, s, fields)
    requires ParseMember(pre, s) == Some((m, next)) && MembersOk([m], {})
    ensures Content(m.key) in fields ==> goal == None
    ensures Content(m.key) !in fields ==>
      var more := fields[Content(m.key) := Meaning(m.value)];
      && MembersOk(done + [m], {}) && more == MembersMeaning(done + [m], {})
      && (At(next, '}') ==> goal == Some((done + [m], next[1..])))
      && (At(next, ',') ==> MembersSoFar(goal, done + [m], "", next[1..], more))
      && (!At(next, '}') && !At(next, ',') ==> goal == None)
  {
    MembersStep(pre, s, fields.Keys, m, next);
    if Content(m.key) in fields {
      assert MembersFrom(m, next, fields.Keys) == None;
    } else {
      MembersSnoc(done, {}, m);
      AfterMoreMembers(done, m, next, fields.Keys);
      MoreKeys(fields, Content(m.key), Meaning(m.value));
    }
  }

  lemma MoreKeys(fields: map<string, Value>, key: string, value: Value)
    ensures fields[key := value].Keys == fields.Keys + {key}
  {
  }

  /** A whole text is accepted exactly when the grammar derives a value from it, with that value. */
  method ParseText(text: string) returns (v: Option<Value>)
    ensures v == Parse(text)
    ensures v.Some? ==> Derives(text, v.value)
    ensures v.None? ==> forall w :: !Derives(text, w)
  {
    var p := new Parser(text);
    assert p.Rest() == text;
    p.SkipBlanks();
    v := p.One();
    if v.Some? {
      p.SkipBlanks();
      if p.i != |p.c| { v := None; }
    }
    assert v == Parse(text);
    if v.Some? { ParseIffDerives(text, v.value); }
    forall w | v.None? ensures !Derives(text, w) { ParseIffDerives(text, w); }
  }

  ghost function AfterItems(done: seq<Item>, r: Option<(seq<Item>, string)>): Option<(seq<Item>, string)> {
    match r
    case None => None
    case Some((items, rest)) => Some((done + items, rest))
  }

  /** The items that start with `item`, when `next` is what follows it. */
  ghost function ItemsFrom(item: Item, next: string): Option<(seq<Item>, string)> {
    if At(next, ']') then Some(([item], next[1..]))
    else if !At(next, ',') then None
    else match ParseItems("", next[1..])
      case None => None
      case Some((items, rest)) => Some(([item] + items, rest))
  }

  lemma AfterNone(r: Option<(seq<Item>, string)>)
    ensures AfterItems([], r) == r
  {
    if r.Some? { assert [] + r.value.0 == r.value.0; }
  }

  lemma AfterMore(done: seq<Item>, item: Item, next: string)
    ensures AfterItems(done, ItemsFrom(item, next)) ==
      if At(next, ']') then Some((done + [item], next[1..]))
      else if !At(next, ',') then None
      else AfterItems(done + [item], ParseItems("", next[1..]))
  {
    if At(next, ',') {
      var r := ParseItems("", next[1..]);
      if r.Some? { assert done + [item] + r.value.0 == done + ([item] + r.value.0); }
    }
  }

  lemma {:induction false} ItemsSnoc(items: seq<Item>, it: Item)
    requires ItemsOk(items) && ItemsOk([it])
    ensures ItemsOk(items + [it]) && ItemsMeaning(items + [it]) == ItemsMeaning(items) + [Meaning(it.value)]
  {
    if items == [] {
      assert items + [it] == [it];
    } else {
      assert (items + [it])[1..] == items[1..] + [it];
      ItemsSnoc(items[1..], it);
    }
  }

  ghost function AfterMembers(done: seq<Member>, r: Option<(seq<Member>, string)>): Option<(seq<Member>, string)> {
    match r
    case None => None
    case Some((ms, rest)) => Some((done + ms, rest))
  }

  lemma MemberIs(blanks: string, s: string, s1: string, s2: string, after: string) returns (m: Member)
    requires AllWs(blanks) && ParseString(SkipWs(s)).Some? && ParseString(SkipWs(s)).value.1 == s1
    requires At(SkipWs(s1), ':') && s2 == SkipWs(s1)[1..]
    requires ParseValue(SkipWs(s2)).Some? && ParseValue(SkipWs(s2)).value.1 == after
    ensures ParseMember(blanks, s) == Some((m, SkipWs(after))) && MembersOk([m], {})
    ensures m.key == ParseString(SkipWs(s)).value.0 && m.value == ParseValue(SkipWs(s2)).value.0
  {
    m := ParseMember(blanks, s).value.0;
  }

  /** The members that start with `m`, when `next` is what follows it. */
  ghost function MembersFrom(m: Member, next: string, seen: set<string>): Option<(seq<Member>, string)>
    requires PiecesOk(m.key)
  {
    if Content(m.key) in seen then None
    else if At(next, '}') then Some(([m], next[1..]))
    else if !At(next, ',') then None
    else match ParseMembers("", next[1..], seen + {Content(m.key)})
      case None => None
      case Some((ms, rest)) => Some(([m] + ms, rest))
  }

  lemma MembersStep(pre: string, s: string, seen: set<string>, m: Member, next: string)
    requires AllWs(pre) && ParseMember(pre, s) == Some((m, next)) && MembersOk([m], {})
    ensures ParseMembers(pre, s, seen) == MembersFrom(m, next, seen)
  {
  }

  lemma AfterNoMembers(r: Option<(seq<Member>, string)>)
    ensures AfterMembers([], r) == r
  {
    if r.Some? { assert [] + r.value.0 == r.value.0; }
  }

  lemma AfterMoreMembers(done: seq<Member>, m: Member, next: string, seen: set<string>)
    requires PiecesOk(m.key) && Content(m.key) !in seen
    ensures AfterMembers(done, MembersFrom(m, next, seen)) ==
      if At(next, '}') then Some((done + [m], next[1..]))
      else if !At(next, ',') then None
      else AfterMembers(done + [m], ParseMembers("", next[1..], seen + {Content(m.key)}))
  {
    if At(next, ',') {
      var r := ParseMembers("", next[1..], seen + {Content(m.key)});
      if r.Some? { assert done + [m] + r.value.0 == done + ([m] + r.value.0); }
    }
  }

  /** One more member with a new key adds exactly that key to the object. */
  lemma {:induction false} MembersSnoc(ms: seq<Member>, seen: set<string>, m: Member)
    requires MembersOk(ms, seen) && MembersOk([m], {})
    requires Content(m.key) !in MembersMeaning(ms, seen) && Content(m.key) !in seen
    ensures MembersOk(ms + [m], seen)
    ensures MembersMeaning(ms + [m], seen) == MembersMeaning(ms, seen)[Content(m.key) := Meaning(m.value)]
  {
    if ms == [] {
      assert ms + [m] == [m];
    } else {
      var k := Content(ms[0].key);
      assert (ms + [m])[1..] == ms[1..] + [m] && (ms + [m])[0] == ms[0];
      MembersSnoc(ms[1..], seen + {k}, m);
      PutLast(map[k := Meaning(ms[0].value)], MembersMeaning(ms[1..], seen + {k}), Content(m.key), Meaning(m.value));
    }
  }

  lemma PutLast(a: map<string, Value>, b: map<string, Value>, k: string, v: Value)
    ensures a + b[k := v] == (a + b)[k := v]
  {
  }

  lemma ContentCons(p: Piece, ps: seq<Piece>, text: string)
    requires PieceOk(p) && PiecesOk(ps)
    ensures PiecesOk([p] + ps) && text + Content([p] + ps) == (text + [PieceChar(p)]) + Content(ps)
  {
    assert ([p] + ps)[1..] == ps;
    assert text + ([PieceChar(p)] + Content(ps)) == (text + [PieceChar(p)]) + Content(ps);
  }
}

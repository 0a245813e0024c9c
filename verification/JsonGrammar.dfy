/** The reading function accepts exactly the grammar, with exactly the grammar's values. */
module JsonGrammar {
  import opened Wrappers
  import opened Json

  // ------------------------------------------------------------ what is read is what was written

  lemma {:induction false} WsSplit(s: string)
    ensures s == TakeWs(s) + SkipWs(s)
  {
    if s != "" && IsWs(s[0]) { WsSplit(s[1..]); }
  }

  lemma {:induction false} DigitsSplit(s: string)
    ensures s == TakeDigits(s) + SkipDigits(s)
  {
    if s != "" && IsDigit(s[0]) { DigitsSplit(s[1..]); }
  }

  lemma PieceRead(s: string)
    requires s != "" && s[0] != '"' && ParsePiece(s).Some?
    ensures s == PieceText(ParsePiece(s).value.0) + ParsePiece(s).value.1
  {
  }

  lemma {:induction false} PiecesRead(s: string)
    requires ParsePieces(s).Some?
    ensures s == PiecesText(ParsePieces(s).value.0) + "\"" + ParsePieces(s).value.1
  {
    if s[0] != '"' {
      PieceRead(s);
      PiecesRead(ParsePiece(s).value.1);
    }
  }

  lemma StringRead(s: string)
    requires ParseString(s).Some?
    ensures s == Quoted(ParseString(s).value.0) + ParseString(s).value.1
  {
    PiecesRead(s[1..]);
  }

  lemma NumberRead(s: string)
    requires ParseNumber(s).Some?
    ensures s == Text(ParseNumber(s).value.0) + ParseNumber(s).value.1
  {
    DigitsSplit(if At(s, '-') then s[1..] else s);
  }

  lemma {:induction false} ValueRead(s: string)
    requires ParseValue(s).Some?
    ensures s == Text(ParseValue(s).value.0) + ParseValue(s).value.1
    decreases |s|, 0
  {
    if s[0] == '{' { ObjectRead(s[1..]); assert s == "{" + s[1..]; }
    else if s[0] == '[' { ArrayRead(s[1..]); assert s == "[" + s[1..]; }
    else if s[0] == '"' { StringRead(s); }
    else if "true" <= s || "false" <= s || "null" <= s { }
    else { NumberRead(s); }
  }

  lemma {:induction false} ArrayRead(s: string)
    requires ParseArray(s).Some?
    ensures "[" + s == Text(ParseArray(s).value.0) + ParseArray(s).value.1
    decreases |s|, 3
  {
    WsSplit(s);
    TakeWsOk(s);
    var t := SkipWs(s);
    if At(t, ']') {
      Uncons(t, ']');
      Wrap("[", TakeWs(s), "]", t[1..]);
    } else {
      ItemsRead(TakeWs(s), t);
      var (items, rest) := ParseItems(TakeWs(s), t).value;
      Wrap("[", ItemsText(items), "]", rest);
    }
  }

  /** One item and the blanks around it. */
  lemma ItemRead(pre: string, s: string, c: Cst, after: string)
    requires SkipWs(s) == Text(c) + after
    ensures pre + s == ItemText(Item(pre + TakeWs(s), c, TakeWs(after))) + SkipWs(after)
  {
    WsSplit(s);
    WsSplit(after);
    Glue(pre, TakeWs(s), Text(c), TakeWs(after), SkipWs(after));
  }

  lemma Glue(a: string, b: string, c: string, d: string, e: string)
    ensures a + (b + (c + (d + e))) == (a + b) + c + d + e
  {
  }

  lemma ItemsTextCons(it: Item, items: seq<Item>)
    requires items != []
    ensures ItemsText([it] + items) == ItemText(it) + "," + ItemsText(items)
  {
    assert ([it] + items)[1..] == items;
  }

  lemma {:induction false} ItemsRead(pre: string, s: string)
    requires AllWs(pre) && ParseItems(pre, s).Some?
    ensures pre + s == ItemsText(ParseItems(pre, s).value.0) + "]" + ParseItems(pre, s).value.1
    decreases |s|, 2
  {
    ValueRead(SkipWs(s));
    var (c, after) := ParseValue(SkipWs(s)).value;
    ItemRead(pre, s, c, after);
    TakeWsOk(s);
    TakeWsOk(after);
    var item := Item(pre + TakeWs(s), c, TakeWs(after));
    var next := SkipWs(after);
    if At(next, ',') {
      ItemsRead("", next[1..]);
      var (items, rest) := ParseItems("", next[1..]).value;
      ItemsTextCons(item, items);
      Uncons(next, ',');
      Nothing(next[1..]);
      Separated(ItemText(item), ",", ItemsText(items), "]", rest);
    } else {
      Uncons(next, ']');
      Last(ItemText(item), "]", next[1..]);
      assert ItemsText([item]) == ItemText(item);
    }
  }

  lemma Separated(a: string, b: string, c: string, d: string, e: string)
    ensures a + (b + (c + d + e)) == (a + b + c) + d + e
  {
  }

  lemma Wrap(a: string, b: string, c: string, d: string)
    ensures a + (b + (c + d)) == (a + b + c) + d
    ensures a + (b + c + d) == (a + b + c) + d
  {
  }

  lemma Last(a: string, b: string, c: string)
    ensures a + (b + c) == a + b + c
  {
  }

  lemma Nothing(s: string)
    ensures "" + s == s && s + "" == s
  {
  }

  lemma Uncons(s: string, c: char)
    requires At(s, c)
    ensures s == [c] + s[1..]
  {
  }

  lemma {:induction false} ObjectRead(s: string)
    requires ParseObject(s).Some?
    ensures "{" + s == Text(ParseObject(s).value.0) + ParseObject(s).value.1
    decreases |s|, 3
  {
    WsSplit(s);
    TakeWsOk(s);
    var t := SkipWs(s);
    if At(t, '}') {
      Uncons(t, '}');
      Wrap("{", TakeWs(s), "}", t[1..]);
    } else {
      MembersRead(TakeWs(s), t, {});
      var (ms, rest) := ParseMembers(TakeWs(s), t, {}).value;
      Wrap("{", MembersText(ms), "}", rest);
    }
  }

  lemma MemberGlue(a: string, b: string, c: string, d: string, e: string, f: string, g: string, h: string)
    ensures a + (b + (c + (d + (":" + (e + (f + (g + h))))))) == (a + b) + c + d + ":" + e + f + g + h
  {
    Glue(a, b, c, d, ":" + (e + (f + (g + h))));
    var head := (a + b) + c + d;
    assert head + (":" + (e + (f + (g + h)))) == head + ":" + e + f + g + h;
  }

  lemma {:induction false} MemberRead(pre: string, s: string)
    requires AllWs(pre) && ParseMember(pre, s).Some?
    ensures pre + s == MemberText(ParseMember(pre, s).value.0) + ParseMember(pre, s).value.1
    decreases |s|, 1
  {
    var (key, s1) := ParseString(SkipWs(s)).value;
    var s2 := SkipWs(s1)[1..];
    var (c, after) := ParseValue(SkipWs(s2)).value;
    StringRead(SkipWs(s));
    ValueRead(SkipWs(s2));
    MemberWhole(pre, s, key, s1, s2, c, after);
    TakeWsOk(s); TakeWsOk(s1); TakeWsOk(s2); TakeWsOk(after);
  }

  lemma MemberWhole(pre: string, s: string, key: seq<Piece>, s1: string, s2: string, c: Cst, after: string)
    requires SkipWs(s) == Quoted(key) + s1 && SkipWs(s1) == ":" + s2 && SkipWs(s2) == Text(c) + after
    ensures pre + s == MemberText(Member(pre + TakeWs(s), key, TakeWs(s1), TakeWs(s2), c, TakeWs(after))) + SkipWs(after)
  {
    WsSplit(s); WsSplit(s1); WsSplit(s2); WsSplit(after);
    MemberGlue(pre, TakeWs(s), Quoted(key), TakeWs(s1), TakeWs(s2), Text(c), TakeWs(after), SkipWs(after));
  }

  lemma MembersTextCons(m: Member, ms: seq<Member>)
    requires ms != []
    ensures MembersText([m] + ms) == MemberText(m) + "," + MembersText(ms)
  {
    assert ([m] + ms)[1..] == ms;
  }

  lemma {:induction false} MembersRead(pre: string, s: string, seen: set<string>)
    requires AllWs(pre) && ParseMembers(pre, s, seen).Some?
    ensures pre + s == MembersText(ParseMembers(pre, s, seen).value.0) + "}" + ParseMembers(pre, s, seen).value.1
    decreases |s|, 2
  {
    MemberRead(pre, s);
    var (m, next) := ParseMember(pre, s).value;
    if At(next, ',') {
      MembersRead("", next[1..], seen + {Content(m.key)});
      var (ms, rest) := ParseMembers("", next[1..], seen + {Content(m.key)}).value;
      MembersTextCons(m, ms);
      Uncons(next, ',');
      Nothing(next[1..]);
      Separated(MemberText(m), ",", MembersText(ms), "}", rest);
    } else {
      Uncons(next, '}');
      Last(MemberText(m), "}", next[1..]);
      assert MembersText([m]) == MemberText(m);
    }
  }

  // ------------------------------------------------------------ what is written is read back

  lemma {:induction false} WsBack(ws: string, t: string)
    requires AllWs(ws) && (t == "" || !IsWs(t[0]))
    ensures TakeWs(ws + t) == ws && SkipWs(ws + t) == t
  {
    if ws == "" {
      assert ws + t == t;
    } else {
      assert (ws + t)[1..] == ws[1..] + t;
      WsBack(ws[1..], t);
    }
  }

  lemma {:induction false} DigitsBack(ds: string, t: string)
    requires AllDigits(ds) && (t == "" || !IsDigit(t[0]))
    ensures TakeDigits(ds + t) == ds && SkipDigits(ds + t) == t
  {
    if ds == "" {
      assert ds + t == t;
    } else {
      assert (ds + t)[1..] == ds[1..] + t;
      DigitsBack(ds[1..], t);
    }
  }

  lemma PieceBack(p: Piece, t: string)
    requires PieceOk(p)
    ensures PieceText(p) + t != "" && (PieceText(p) + t)[0] != '"'
    ensures ParsePiece(PieceText(p) + t) == Some((p, t))
  {
    var s := PieceText(p) + t;
    assert s[|PieceText(p)|..] == t;
  }

  lemma {:induction false} PiecesBack(ps: seq<Piece>, t: string)
    requires PiecesOk(ps)
    ensures ParsePieces(PiecesText(ps) + ("\"" + t)) == Some((ps, t))
  {
    if ps == [] {
      Nothing("\"" + t);
      Headed("\"", t);
    } else {
      var rest := PiecesText(ps[1..]) + ("\"" + t);
      Last(PieceText(ps[0]), PiecesText(ps[1..]), "\"" + t);
      PieceBack(ps[0], rest);
      PiecesBack(ps[1..], t);
      assert [ps[0]] + ps[1..] == ps;
    }
  }

  lemma StringBack(ps: seq<Piece>, t: string)
    requires PiecesOk(ps)
    ensures ParseString(Quoted(ps) + t) == Some((ps, t))
  {
    PiecesBack(ps, t);
    assert (Quoted(ps) + t)[1..] == PiecesText(ps) + ("\"" + t);
  }

  /** A number must not be followed by more of a number. */
  predicate Follow(c: Cst, t: string) {
    c.CNum? && t != "" ==> !IsDigit(t[0]) && t[0] != '.' && t[0] != 'e' && t[0] != 'E'
  }

  lemma NumberBack(neg: bool, digits: string, t: string)
    requires WellFormed(CNum(neg, digits)) && Follow(CNum(neg, digits), t)
    ensures ParseValue(Text(CNum(neg, digits)) + t) == Some((CNum(neg, digits), t))
  {
    var s := Text(CNum(neg, digits)) + t;
    DigitsBack(digits, t);
    if neg { assert s[1..] == digits + t; } else { assert s == digits + t; assert s[0] == digits[0]; }
  }

  lemma TextHead(c: Cst)
    requires WellFormed(c)
    ensures Text(c) != "" && !IsWs(Text(c)[0]) && Text(c)[0] !in "]},"
  {
    match c {
      case CNum(neg, digits) => if !neg { assert Text(c) == digits; assert IsDigit(digits[0]); }
      case _ =>
    }
  }

  lemma {:induction false} ValueBack(c: Cst, t: string)
    requires WellFormed(c) && Follow(c, t)
    ensures ParseValue(Text(c) + t) == Some((c, t))
    decreases c, 0
  {
    match c {
      case CNull => assert "null" <= "null" + t; assert ("null" + t)[4..] == t;
      case CBool(b) =>
        if b { assert "true" <= "true" + t; assert ("true" + t)[4..] == t; }
        else { assert "false" <= "false" + t; assert ("false" + t)[5..] == t; }
      case CNum(neg, digits) => NumberBack(neg, digits, t);
      case CStr(ps) => StringBack(ps, t);
      case CArr(ws, items) => ArrayBack(ws, items, t);
      case CObj(ws, members) => ObjectBack(ws, members, t);
    }
  }

  /** Blanks may be counted with what was already read. */
  lemma ItemsMoved(s: string)
    ensures AllWs(TakeWs(s)) && ParseItems(TakeWs(s), SkipWs(s)) == ParseItems("", s)
  {
    TakeWsOk(s);
    WsBack("", SkipWs(s));
    assert "" + SkipWs(s) == SkipWs(s);
    assert TakeWs(s) + "" == "" + TakeWs(s);
  }

  lemma {:induction false} ArrayBack(ws: string, items: seq<Item>, t: string)
    requires WellFormed(CArr(ws, items))
    ensures ParseValue(Text(CArr(ws, items)) + t) == Some((CArr(ws, items), t))
    decreases items, 2
  {
    var s := Text(CArr(ws, items)) + t;
    if items == [] {
      assert s[1..] == ws + ("]" + t);
      WsBack(ws, "]" + t);
    } else {
      var body := ItemsText(items) + ("]" + t);
      assert s[1..] == body;
      ItemsBack(items, t);
      ItemsMoved(body);
      ItemsHead(items, "]" + t);
    }
  }

  lemma ItemsHead(items: seq<Item>, t: string)
    requires items != [] && ItemsOk(items)
    ensures var s := SkipWs(ItemsText(items) + t); s != "" && s[0] !in "]},"
  {
    var it := items[0];
    var tail := if |items| == 1 then "" else "," + ItemsText(items[1..]);
    assert ItemsText(items) + t == it.pre + (Text(it.value) + (it.post + tail + t));
    TextHead(it.value);
    WsBack(it.pre, Text(it.value) + (it.post + tail + t));
  }

  /** One item is read back, up to the separator. */
  lemma {:induction false} ItemBack(it: Item, t: string)
    requires AllWs(it.pre) && WellFormed(it.value) && AllWs(it.post) && t != "" && t[0] in "]},"
    ensures var s := ItemText(it) + t;
      && TakeWs(s) == it.pre
      && ParseValue(SkipWs(s)) == Some((it.value, it.post + t))
      && TakeWs(it.post + t) == it.post && SkipWs(it.post + t) == t
    decreases it, 1
  {
    var s := ItemText(it) + t;
    assert s == it.pre + (Text(it.value) + (it.post + t));
    TextHead(it.value);
    WsBack(it.pre, Text(it.value) + (it.post + t));
    WsBack(it.post, t);
    ValueBack(it.value, it.post + t);
  }

  lemma {:induction false} ItemsBack(items: seq<Item>, t: string)
    requires items != [] && ItemsOk(items)
    ensures ParseItems("", ItemsText(items) + ("]" + t)) == Some((items, t))
    decreases items, 1
  {
    var it := items[0];
    Nothing(it.pre);
    if |items| == 1 {
      assert items == [it];
      ItemBack(it, "]" + t);
      Headed("]", t);
    } else {
      var more := ItemsText(items[1..]) + ("]" + t);
      ItemBack(it, "," + more);
      ItemsBack(items[1..], t);
      Last3(ItemText(it), ",", ItemsText(items[1..]), "]" + t);
      Headed(",", more);
      assert items == [it] + items[1..];
    }
  }

  lemma {:induction false} ObjectBack(ws: string, ms: seq<Member>, t: string)
    requires WellFormed(CObj(ws, ms))
    ensures ParseValue(Text(CObj(ws, ms)) + t) == Some((CObj(ws, ms), t))
    decreases ms, 2
  {
    var s := Text(CObj(ws, ms)) + t;
    if ms == [] {
      assert s[1..] == ws + ("}" + t);
      WsBack(ws, "}" + t);
    } else {
      var body := MembersText(ms) + ("}" + t);
      assert s[1..] == body;
      MembersBack(ms, {}, t);
      MembersMoved(body, {});
      MembersHead(ms, "}" + t);
    }
  }

  lemma MemberLayout(m: Member, t: string)
    ensures MemberText(m) + t ==
      m.pre + (Quoted(m.key) + (m.mid + (":" + (m.gap + (Text(m.value) + (m.post + t))))))
  {
    Layout(m.pre, Quoted(m.key), m.mid, m.gap, Text(m.value), m.post, t);
  }

  lemma Layout(a: string, b: string, c: string, d: string, e: string, f: string, t: string)
    ensures (a + b + c + ":" + d + e + f) + t == a + (b + (c + (":" + (d + (e + (f + t))))))
  {
    assert (a + b + c + ":" + d + e + f) + t == (a + b + c + ":" + d + e) + (f + t);
    assert (a + b + c + ":" + d + e) + (f + t) == (a + b + c + ":" + d) + (e + (f + t));
    assert (a + b + c + ":" + d) + (e + (f + t)) == (a + b + c + ":") + (d + (e + (f + t)));
    var g := d + (e + (f + t));
    assert (a + b + c + ":") + g == (a + b + c) + (":" + g);
    assert (a + b + c) + (":" + g) == (a + b) + (c + (":" + g));
    assert (a + b) + (c + (":" + g)) == a + (b + (c + (":" + g)));
  }

  lemma MembersHead(ms: seq<Member>, t: string)
    requires ms != [] && MembersOk(ms, {})
    ensures var s := SkipWs(MembersText(ms) + t); s != "" && s[0] == '"'
  {
    var m := ms[0];
    var tail := if |ms| == 1 then t else "," + (MembersText(ms[1..]) + t);
    assert MembersText(ms) + t == MemberText(m) + tail;
    MemberLayout(m, tail);
    WsBack(m.pre, Quoted(m.key) + (m.mid + (":" + (m.gap + (Text(m.value) + (m.post + tail))))));
  }

  lemma MemberMoved(s: string)
    ensures AllWs(TakeWs(s)) && ParseMember(TakeWs(s), SkipWs(s)) == ParseMember("", s)
  {
    TakeWsOk(s);
    WsBack("", SkipWs(s));
    assert "" + SkipWs(s) == SkipWs(s);
    assert TakeWs(s) + "" == "" + TakeWs(s);
  }

  lemma MembersMoved(s: string, seen: set<string>)
    ensures AllWs(TakeWs(s)) && ParseMembers(TakeWs(s), SkipWs(s), seen) == ParseMembers("", s, seen)
  {
    MemberMoved(s);
  }

  lemma {:induction false} MemberBack(m: Member, t: string)
    requires MembersOk([m], {}) && t != "" && t[0] in "]},"
    ensures ParseMember("", MemberText(m) + t) == Some((m, t))
    decreases m, 1
  {
    var s := MemberText(m) + t;
    var s2 := m.gap + (Text(m.value) + (m.post + t));
    var s1 := m.mid + (":" + s2);
    MemberLayout(m, t);
    WsBack(m.pre, Quoted(m.key) + s1);
    StringBack(m.key, s1);
    TextHead(m.value);
    ValueBack(m.value, m.post + t);
    MemberParts(m, t, s, s1, s2);
  }

  lemma MemberParts(m: Member, t: string, s: string, s1: string, s2: string)
    requires MembersOk([m], {}) && t != "" && t[0] in "]},"
    requires s2 == m.gap + (Text(m.value) + (m.post + t)) && s1 == m.mid + (":" + s2)
    requires TakeWs(s) == m.pre && ParseString(SkipWs(s)) == Some((m.key, s1))
    requires Text(m.value) != "" && !IsWs(Text(m.value)[0])
    requires ParseValue(Text(m.value) + (m.post + t)) == Some((m.value, m.post + t))
    ensures ParseMember("", s) == Some((m, t))
  {
    WsBack(m.mid, ":" + s2);
    assert (":" + s2)[1..] == s2;
    WsBack(m.gap, Text(m.value) + (m.post + t));
    WsBack(m.post, t);
    assert "" + m.pre == m.pre;
  }

  lemma {:induction false} MembersBack(ms: seq<Member>, seen: set<string>, t: string)
    requires ms != [] && MembersOk(ms, seen)
    ensures ParseMembers("", MembersText(ms) + ("}" + t), seen) == Some((ms, t))
    decreases ms, 1
  {
    var m := ms[0];
    assert MembersOk([m], {});
    if |ms| == 1 {
      assert ms == [m];
      MemberBack(m, "}" + t);
      Headed("}", t);
    } else {
      var more := MembersText(ms[1..]) + ("}" + t);
      MemberBack(m, "," + more);
      MembersBack(ms[1..], seen + {Content(m.key)}, t);
      Last3(MemberText(m), ",", MembersText(ms[1..]), "}" + t);
      Headed(",", more);
      assert ms == [m] + ms[1..];
    }
  }

  lemma Last3(a: string, b: string, c: string, d: string)
    ensures (a + b + c) + d == a + (b + (c + d))
  {
    assert (a + b + c) + d == (a + b) + (c + d);
    assert (a + b) + (c + d) == a + (b + (c + d));
  }

  lemma Headed(a: string, s: string)
    requires |a| == 1
    ensures (a + s)[1..] == s && (a + s) != "" && (a + s)[0] == a[0]
  {
  }

  // ------------------------------------------------------------ the theorem

  /** A text is accepted with value `v` exactly when the grammar derives `v` from it. */
  lemma ParseIffDerives(text: string, v: Value)
    ensures Parse(text) == Some(v) <==> Derives(text, v)
  {
    if Parse(text) == Some(v) { ParsedDerives(text, v); }
    if Derives(text, v) { DerivedParses(text, v); }
  }

  lemma ParsedDerives(text: string, v: Value)
    requires Parse(text) == Some(v)
    ensures Derives(text, v)
  {
    WsSplit(text);
    TakeWsOk(text);
    var (c, rest) := ParseValue(SkipWs(text)).value;
    ValueRead(SkipWs(text));
    WsSplit(rest);
    TakeWsOk(rest);
    assert rest == TakeWs(rest) + "";
    assert text == TakeWs(text) + Text(c) + TakeWs(rest);
  }

  lemma DerivedParses(text: string, v: Value)
    requires Derives(text, v)
    ensures Parse(text) == Some(v)
  {
    var pre, c, post :| AllWs(pre) && WellFormed(c) && AllWs(post) && text == pre + Text(c) + post && v == Meaning(c);
    TreeParses(text, pre, c, post);
  }

  lemma TreeParses(text: string, pre: string, c: Cst, post: string)
    requires AllWs(pre) && WellFormed(c) && AllWs(post) && text == pre + Text(c) + post
    ensures Parse(text) == Some(Meaning(c))
  {
    Last(pre, Text(c), post);
    TextHead(c);
    WsBack(pre, Text(c) + post);
    ValueBack(c, post);
    AllBlank(post);
  }

  lemma AllBlank(ws: string)
    requires AllWs(ws)
    ensures SkipWs(ws) == ""
  {
    WsBack(ws, "");
    assert ws + "" == ws;
  }

  /** The grammar is unambiguous: no text has two values. */
  lemma OneValue(text: string, v: Value, w: Value)
    requires Derives(text, v) && Derives(text, w)
    ensures v == w
  {
    DerivedParses(text, v);
    DerivedParses(text, w);
  }
}

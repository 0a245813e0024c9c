/**
The language told by its texts alone: which characters are blanks, digits, escapes and what they stand
for, and how the texts of values make the texts of larger values.
*/
module JsonRules {
  import opened Wrappers
  import opened Json
  import opened JsonGrammar
  import opened JsonParser
  import opened JsonPrinter

  // ------------------------------------------------------------ blanks and words

  /** The four blanks, by code point. */
  predicate BlankChar(c: char) {
    c as int in {0x20, 0x09, 0x0A, 0x0D}
  }

  lemma Blanks(t: string, v: Value, c: char)
    requires Derives(t, v) && BlankChar(c)
    ensures Derives([c] + t, v) && Derives(t + [c], v)
  {
    var pre, x, post :| AllWs(pre) && WellFormed(x) && AllWs(post) && t == pre + Text(x) + post && v == Meaning(x);
    Between([c] + pre, x, post, [c] + t) by { Outer([c], pre, Text(x), post); }
    Between(pre, x, post + [c], t + [c]) by { Outer(pre, Text(x), post, [c]); }
  }

  lemma Outer(a: string, b: string, c: string, d: string)
    ensures a + (b + c + d) == (a + b) + c + d && (a + b + c) + d == a + b + (c + d)
  {
  }

  lemma Between(pre: string, x: Cst, post: string, t: string)
    requires AllWs(pre) && WellFormed(x) && AllWs(post) && t == pre + Text(x) + post
    ensures Derives(t, Meaning(x))
  {
  }

  /** Nothing else begins a text: a blank, or the first character of one of the seven kinds of value. */
  lemma FirstChar(t: string, v: Value)
    requires Derives(t, v)
    ensures t != "" && (BlankChar(t[0]) || t[0] in "ntf\"[{-0123456789")
  {
    var pre, x, post :| AllWs(pre) && WellFormed(x) && AllWs(post) && t == pre + Text(x) + post && v == Meaning(x);
    TextHead(x);
    if pre == "" {
      assert t[0] == Text(x)[0];
      HeadChar(x);
    } else {
      assert t[0] == pre[0];
    }
  }

  lemma HeadChar(x: Cst)
    requires WellFormed(x)
    ensures Text(x) != "" && Text(x)[0] in "ntf\"[{-0123456789"
  {
    match x {
      case CNum(neg, digits) =>
        if !neg {
          assert Text(x) == digits && IsDigit(digits[0]);
          DigitPlace(digits[0]);
        }
      case _ =>
    }
  }

  lemma DigitPlace(c: char)
    ensures IsDigit(c) <==> c in "0123456789"
    ensures IsDigit(c) ==> "0123456789"[c as int - '0' as int] == c
  {
    assert forall k :: 0 <= k < 10 ==> "0123456789"[k] as int == k + '0' as int;
    if IsDigit(c) { assert "0123456789"[c as int - '0' as int] == c; }
  }

  lemma Words()
    ensures Derives("null", Null) && Derives("true", Bool(true)) && Derives("false", Bool(false))
  {
    Itself(CNull, "null", Null);
    Itself(CBool(true), "true", Bool(true));
    Itself(CBool(false), "false", Bool(false));
  }

  lemma Itself(x: Cst, t: string, v: Value)
    requires WellFormed(x) && t == Text(x) && v == Meaning(x)
    ensures Derives(t, v)
  {
    assert t == "" + Text(x) + "" && AllWs("");
  }

  // ------------------------------------------------------------ numbers

  predicate Figures(d: seq<nat>) {
    forall k :: 0 <= k < |d| ==> d[k] < 10
  }

  /** Each figure at its place. */
  function Spell(d: seq<nat>): (s: string)
    requires Figures(d)
    ensures |s| == |d| && forall k :: 0 <= k < |d| ==> s[k] == "0123456789"[d[k]]
  {
    seq(|d|, k requires 0 <= k < |d| => "0123456789"[d[k]])
  }

  function Decimal(d: seq<nat>): nat {
    if d == [] then 0 else 10 * Decimal(d[..|d| - 1]) + d[|d| - 1]
  }

  lemma {:induction false} NatOfSpell(d: seq<nat>)
    requires Figures(d)
    ensures AllDigits(Spell(d)) && Nat(Spell(d)) == Decimal(d)
  {
    assert forall k :: 0 <= k < 10 ==> "0123456789"[k] as int == k + '0' as int;
    if d != [] {
      NatOfSpell(d[..|d| - 1]);
      assert Spell(d)[..|d| - 1] == Spell(d[..|d| - 1]);
    }
  }

  /** NUMBERS: figures are read in base ten, leading zeros allowed, with an optional minus, exactly within 64
      bits. */
  lemma Numbers(d: seq<nat>)
    requires Figures(d) && d != []
    ensures forall v :: Derives(Spell(d), v) <==> v == Int(Decimal(d)) && Decimal(d) <= 0x7fff_ffff_ffff_ffff
    ensures forall v :: Derives("-" + Spell(d), v) <==> v == Int(0 - Decimal(d)) && Decimal(d) <= 0x8000_0000_0000_0000
  {
    NatOfSpell(d);
    NumberText(false, Spell(d));
    NumberText(true, Spell(d));
    assert "" + Spell(d) == Spell(d);
  }

  lemma NumberText(neg: bool, digits: string)
    requires digits != "" && AllDigits(digits)
    ensures var t := (if neg then "-" else "") + digits;
      forall v :: Derives(t, v) <==> v == Int(Number(neg, digits)) && MIN_INT <= Number(neg, digits) <= MAX_INT
  {
    var t := (if neg then "-" else "") + digits;
    var x := CNum(neg, digits);
    if WellFormed(x) {
      Itself(x, t, Meaning(x));
      forall v | Derives(t, v) ensures v == Int(Number(neg, digits)) { OneValue(t, v, Meaning(x)); }
    } else {
      forall v ensures !Derives(t, v) {
        TooBig(neg, digits);
        ParseIffDerives(t, v);
      }
    }
  }

  lemma TooBig(neg: bool, digits: string)
    requires digits != "" && AllDigits(digits) && !(MIN_INT <= Number(neg, digits) <= MAX_INT)
    ensures Parse((if neg then "-" else "") + digits) == None
  {
    var t := (if neg then "-" else "") + digits;
    NumberRefused(neg, digits, t);
    ReadAsNumber(t);
  }

  lemma NumberRefused(neg: bool, digits: string, t: string)
    requires digits != "" && AllDigits(digits) && !(MIN_INT <= Number(neg, digits) <= MAX_INT)
    requires t == (if neg then "-" else "") + digits
    ensures t != "" && (t[0] == '-' || IsDigit(t[0])) && ParseNumber(t) == None
  {
    DigitsBack(digits, "");
    assert digits + "" == digits && IsDigit(digits[0]);
    if neg { assert t[0] == '-' && t[1..] == digits; } else { assert t == digits && t[0] == digits[0]; }
  }

  lemma ReadAsNumber(t: string)
    requires t != "" && (t[0] == '-' || IsDigit(t[0]))
    ensures SkipWs(t) == t && ParseValue(t) == ParseNumber(t)
  {
    assert !IsWs(t[0]);
    NotAWord(t);
  }

  lemma NotAWord(t: string)
    requires t != "" && t[0] != 't' && t[0] != 'f' && t[0] != 'n'
    ensures !("true" <= t) && !("false" <= t) && !("null" <= t)
  {
    assert "true"[0] == 't' && "false"[0] == 'f' && "null"[0] == 'n';
  }

  // ------------------------------------------------------------ strings

  lemma OnePiece(p: Piece, t: string, c: char)
    requires PieceOk(p) && t == "\"" + PieceText(p) + "\"" && c == PieceChar(p)
    ensures Derives(t, Str([c]))
  {
    assert [p][1..] == [];
    assert PiecesText([p]) == PieceText(p) + PiecesText([]) == PieceText(p);
    assert Content([p]) == [c] + Content([]) == [c];
    Itself(CStr([p]), t, Str([c]));
  }

  /** A character that needs no escape stands for itself. */
  lemma PlainChar(c: char)
    requires c as int >= 0x20 && c as int != 0x22 && c as int != 0x5C
    ensures Derives("\"" + [c] + "\"", Str([c]))
  {
    OnePiece(Plain(c), "\"" + [c] + "\"", c);
  }

  /** The eight short escapes, each with its code point. */
  lemma Escapes()
    ensures forall k :: 0 <= k < 8 ==> EscapeIs(k)
  {
    forall k | 0 <= k < 8 ensures EscapeIs(k) {
      EscapeAt(k);
      OnePiece(Short(ESCAPE_LETTERS[k]), ['"', '\\', ESCAPE_LETTERS[k], '"'], ESCAPE_CODES[k] as char);
    }
  }

  const ESCAPE_LETTERS := "\"\\/bfnrt"
  const ESCAPE_CODES: seq<nat> := [0x22, 0x5C, 0x2F, 0x08, 0x0C, 0x0A, 0x0D, 0x09]

  /** The literal of the k-th escape has the character with its code point for its content. */
  ghost predicate EscapeIs(k: nat)
    requires k < 8
  {
    Derives(['"', '\\', ESCAPE_LETTERS[k], '"'], Str([ESCAPE_CODES[k] as char]))
  }

  lemma EscapeAt(k: nat)
    requires k < 8
    ensures IsShort(ESCAPE_LETTERS[k]) && ShortChar(ESCAPE_LETTERS[k]) as int == ESCAPE_CODES[k]
    ensures ['"', '\\', ESCAPE_LETTERS[k], '"'] == "\"" + PieceText(Short(ESCAPE_LETTERS[k])) + "\""
  {
  }

  const LOWER := "0123456789abcdef"
  const UPPER := "0123456789ABCDEF"

  /** A hexadecimal digit stands for its place, in either case; nothing else is one. */
  lemma HexPlaces(c: char)
    ensures IsHex(c) <==> c in LOWER || c in UPPER
    ensures forall k :: 0 <= k < 16 ==> IsHex(LOWER[k]) && HexValue(LOWER[k]) == k && IsHex(UPPER[k]) && HexValue(UPPER[k]) == k
  {
    assert forall k :: 0 <= k < 10 ==> LOWER[k] as int == k + '0' as int && UPPER[k] == LOWER[k];
    assert forall k :: 10 <= k < 16 ==> LOWER[k] as int == k - 10 + 'a' as int && UPPER[k] as int == k - 10 + 'A' as int;
    if IsDigit(c) { assert LOWER[c as int - '0' as int] == c; }
    else if 'a' <= c <= 'f' { assert LOWER[c as int - 'a' as int + 10] == c; }
    else if 'A' <= c <= 'F' { assert UPPER[c as int - 'A' as int + 10] == c; }
  }

  /** One digit of either case for the figure `n`. */
  predicate Digit16(c: char, n: nat) {
    n < 16 && (c == LOWER[n] || c == UPPER[n])
  }

  /** FOUR HEXADECIMAL DIGITS, in either case, stand for the character with that code point; a surrogate
      is refused. */
  lemma HexEscape(a: char, b: char, c: char, d: char, w: nat, x: nat, y: nat, z: nat)
    requires Digit16(a, w) && Digit16(b, x) && Digit16(c, y) && Digit16(d, z)
    ensures var code, t := w * 0x1000 + x * 0x100 + y * 0x10 + z, "\"\\u" + [a, b, c, d] + "\"";
      if 0xD800 <= code <= 0xDFFF then forall v :: !Derives(t, v) else Derives(t, Str([code as char]))
  {
    var t := "\"\\u" + [a, b, c, d] + "\"";
    CodeIs(a, b, c, d, w, x, y, z);
    assert "\"" + ['\\', 'u', a, b, c, d] + "\"" == t;
    if Surrogate(Code(a, b, c, d)) {
      BadPiece(['\\', 'u', a, b, c, d]);
    } else {
      OnePiece(Hex(a, b, c, d), t, Code(a, b, c, d) as char);
    }
  }

  lemma CodeIs(a: char, b: char, c: char, d: char, w: nat, x: nat, y: nat, z: nat)
    requires Digit16(a, w) && Digit16(b, x) && Digit16(c, y) && Digit16(d, z)
    ensures IsHex(a) && IsHex(b) && IsHex(c) && IsHex(d) && Code(a, b, c, d) == w * 0x1000 + x * 0x100 + y * 0x10 + z
  {
    HexPlaces(a);
    assert HexValue(a) == w && HexValue(b) == x && HexValue(c) == y && HexValue(d) == z;
  }

  /** An escape of four characters that are not all hexadecimal digits is refused. */
  lemma NotHex(a: char, b: char, c: char, d: char, v: Value)
    requires exists k: char :: k in [a, b, c, d] && k !in LOWER && k !in UPPER
    ensures !Derives("\"\\u" + [a, b, c, d] + "\"", v)
  {
    HexPlaces(a);
    HexPlaces(b);
    HexPlaces(c);
    HexPlaces(d);
    assert "\"" + ['\\', 'u', a, b, c, d] + "\"" == "\"\\u" + [a, b, c, d] + "\"";
    BadPiece(['\\', 'u', a, b, c, d]);
  }

  /** A backslash before anything but `"`, `\`, `/`, `b`, `f`, `n`, `r`, `t` and `u` is refused. */
  lemma NoOtherEscape(e: char, v: Value)
    requires e !in "\"\\/bfnrtu"
    ensures !Derives("\"\\" + [e] + "\"", v)
  {
    assert "\"" + ['\\', e] + "\"" == "\"\\" + [e] + "\"";
    BadPiece(['\\', e]);
  }

  /** A control character as it is, is refused. */
  lemma NoRawControl(c: char, v: Value)
    requires c as int < 0x20
    ensures !Derives("\"" + [c] + "\"", v)
  {
    BadPiece([c]);
  }

  lemma BadPiece(s: string)
    requires s != "" && s[0] != '"' && ParsePiece(s + "\"") == None
    ensures forall v :: !Derives("\"" + s + "\"", v)
  {
    var t := "\"" + s + "\"";
    forall v ensures !Derives(t, v) {
      ParseIffDerives(t, v);
      assert t[1..] == s + "\"" && SkipWs(t) == t;
      assert ParsePieces(t[1..]) == None;
      assert ParseValue(t) == None;
    }
  }

  // ------------------------------------------------------------ larger values from smaller

  /** The tree of a text that begins and ends with the marks of its kind has no blanks around it. */
  lemma Bare(t: string, v: Value) returns (x: Cst)
    requires Derives(t, v) && |t| >= 2 && !BlankChar(t[0]) && !BlankChar(t[|t| - 1])
    ensures WellFormed(x) && t == Text(x) && v == Meaning(x)
  {
    var pre, y, post :| AllWs(pre) && WellFormed(y) && AllWs(post) && t == pre + Text(y) + post && v == Meaning(y);
    x := y;
    Ends(pre, Text(y), post);
    assert pre == "" && post == "";
    assert "" + Text(y) + "" == Text(y);
  }

  lemma Ends(a: string, b: string, c: string)
    ensures a != "" ==> (a + b + c)[0] == a[0]
    ensures c != "" ==> (a + b + c)[|a + b + c| - 1] == c[|c| - 1]
  {
  }

  lemma Inside(a: string, b: string, l: string, m: string)
    requires |l| == 1 && |m| == 1 && l + a + m == l + b + m
    ensures a == b
  {
    assert (l + a + m)[1..|a| + 1] == a && (l + b + m)[1..|b| + 1] == b;
  }

  lemma Pieces(a: string, x: string) returns (ps: seq<Piece>)
    requires Derives("\"" + a + "\"", Str(x))
    ensures PiecesOk(ps) && PiecesText(ps) == a && Content(ps) == x
  {
    var t := "\"" + a + "\"";
    var y := Bare(t, Str(x));
    ps := y.pieces;
    Inside(PiecesText(ps), a, "\"", "\"");
  }

  /** STRINGS: what stands between the quotes is read piece after piece. */
  lemma Joined(a: string, b: string, x: string, y: string)
    requires Derives("\"" + a + "\"", Str(x)) && Derives("\"" + b + "\"", Str(y))
    ensures Derives("\"" + (a + b) + "\"", Str(x + y))
  {
    var ps := Pieces(a, x);
    var qs := Pieces(b, y);
    PiecesJoin(ps, qs);
    Itself(CStr(ps + qs), "\"" + (a + b) + "\"", Str(x + y));
  }

  lemma {:induction false} PiecesJoin(ps: seq<Piece>, qs: seq<Piece>)
    requires PiecesOk(ps) && PiecesOk(qs)
    ensures PiecesOk(ps + qs) && PiecesText(ps + qs) == PiecesText(ps) + PiecesText(qs)
    ensures Content(ps + qs) == Content(ps) + Content(qs)
  {
    if ps == [] {
      assert ps + qs == qs;
    } else {
      assert (ps + qs)[1..] == ps[1..] + qs && (ps + qs)[0] == ps[0];
      PiecesJoin(ps[1..], qs);
      Last(PieceText(ps[0]), PiecesText(ps[1..]), PiecesText(qs));
      Last([PieceChar(ps[0])], Content(ps[1..]), Content(qs));
    }
  }

  lemma Empties()
    ensures Derives("\"\"", Str("")) && Derives("[]", Arr([])) && Derives("{}", Obj(map[]))
  {
    NoCharacters();
    Itself(CArr("", []), "[]", Arr([]));
    Itself(CObj("", []), "{}", Obj(map[]));
  }

  lemma NoCharacters()
    ensures Derives("\"\"", Str(""))
  {
    assert PiecesText([]) == "" && Content([]) == "";
    Itself(CStr([]), "\"\"", Str(""));
  }

  lemma ItemOf(t: string, v: Value) returns (it: Item)
    requires Derives(t, v)
    ensures ItemsOk([it]) && ItemText(it) == t && Meaning(it.value) == v
  {
    var pre, y, post :| AllWs(pre) && WellFormed(y) && AllWs(post) && t == pre + Text(y) + post && v == Meaning(y);
    it := Item(pre, y, post);
    assert [it][1..] == [];
  }

  /** ARRAYS: one value between brackets; */
  lemma OneItem(t: string, v: Value)
    requires Derives(t, v)
    ensures Derives("[" + t + "]", Arr([v]))
  {
    var it := ItemOf(t, v);
    assert [it][1..] == [] && ItemsMeaning([it]) == [v] + ItemsMeaning([]) == [v];
    Itself(CArr("", [it]), "[" + t + "]", Arr([v]));
  }

  /** ... and after a comma one more, in order. */
  lemma MoreItems(a: string, vs: seq<Value>, t: string, v: Value)
    requires Derives("[" + a + "]", Arr(vs)) && vs != [] && Derives(t, v)
    ensures Derives("[" + (a + "," + t) + "]", Arr(vs + [v]))
  {
    var x := Bare("[" + a + "]", Arr(vs));
    var it := ItemOf(t, v);
    Inside(ItemsText(x.items), a, "[", "]");
    ItemsSnoc(x.items, it);
    Itself(CArr("", x.items + [it]), "[" + (a + "," + t) + "]", Arr(vs + [v]));
  }

  lemma {:induction false} ItemsSnoc(items: seq<Item>, it: Item)
    requires items != [] && ItemsOk(items) && ItemsOk([it])
    ensures ItemsOk(items + [it]) && ItemsText(items + [it]) == ItemsText(items) + "," + ItemText(it)
    ensures ItemsMeaning(items + [it]) == ItemsMeaning(items) + [Meaning(it.value)]
  {
    var all := items + [it];
    assert all[1..] == items[1..] + [it] && all[0] == items[0] && [it][1..] == [];
    if |items| == 1 {
      assert items[1..] == [] && all[1..] == [it];
    } else {
      ItemsSnoc(items[1..], it);
      CommaLast(ItemText(items[0]), ItemsText(items[1..]), ItemText(it));
    }
  }

  lemma CommaLast(a: string, b: string, c: string)
    ensures a + "," + (b + "," + c) == a + "," + b + "," + c
  {
  }

  lemma MemberOf(k: string, key: string, t: string, v: Value) returns (m: Member)
    requires Derives("\"" + k + "\"", Str(key)) && Derives(t, v)
    ensures MembersOk([m], {}) && MemberText(m) == "\"" + k + "\":" + t && Content(m.key) == key && Meaning(m.value) == v
  {
    var ps := Pieces(k, key);
    var pre, y, post :| AllWs(pre) && WellFormed(y) && AllWs(post) && t == pre + Text(y) + post && v == Meaning(y);
    m := Member("", ps, "", pre, y, post);
    assert [m][1..] == [];
    KeyColon(k, pre, Text(y), post);
  }

  lemma KeyColon(k: string, a: string, b: string, c: string)
    ensures "" + ("\"" + k + "\"") + "" + ":" + a + b + c == "\"" + k + "\":" + (a + b + c)
  {
    assert "\"" + k + "\"" + ":" == "\"" + k + "\":";
    Last("\"" + k + "\":", a + b, c);
    Last("\"" + k + "\":", a, b);
  }

  /** OBJECTS: one key and its value between braces; */
  lemma OneMember(k: string, key: string, t: string, v: Value)
    requires Derives("\"" + k + "\"", Str(key)) && Derives(t, v)
    ensures Derives("{" + ("\"" + k + "\":" + t) + "}", Obj(map[key := v]))
  {
    var m := MemberOf(k, key, t, v);
    assert [m][1..] == [];
    assert MembersMeaning([m], {}) == map[key := v] + MembersMeaning([], {key}) == map[key := v];
    Itself(CObj("", [m]), "{" + ("\"" + k + "\":" + t) + "}", Obj(map[key := v]));
  }

  /** ... and after a comma one more, under a key that is not there yet. */
  lemma MoreMembers(a: string, fields: map<string, Value>, k: string, key: string, t: string, v: Value)
    requires Derives("{" + a + "}", Obj(fields)) && fields != map[] && key !in fields
    requires Derives("\"" + k + "\"", Str(key)) && Derives(t, v)
    ensures Derives("{" + (a + "," + ("\"" + k + "\":" + t)) + "}", Obj(fields[key := v]))
  {
    var x := Bare("{" + a + "}", Obj(fields));
    var m := MemberOf(k, key, t, v);
    Inside(MembersText(x.members), a, "{", "}");
    JsonParser.MembersSnoc(x.members, {}, m);
    MembersTextSnoc(x.members, m);
    Itself(CObj("", x.members + [m]), "{" + (a + "," + ("\"" + k + "\":" + t)) + "}", Obj(fields[key := v]));
  }

  lemma {:induction false} MembersTextSnoc(ms: seq<Member>, m: Member)
    requires ms != []
    ensures MembersText(ms + [m]) == MembersText(ms) + "," + MemberText(m)
  {
    var all := ms + [m];
    assert all[1..] == ms[1..] + [m] && all[0] == ms[0];
    if |ms| == 1 {
      assert all[1..] == [m];
    } else {
      MembersTextSnoc(ms[1..], m);
      CommaLast(MemberText(ms[0]), MembersText(ms[1..]), MemberText(m));
    }
  }

  // ------------------------------------------------------------ what the printer writes

  /** Each character as the printer writes it: five escapes of two characters, the other controls as four
      hexadecimal digits in lower case, everything else as it is. */
  lemma Printed(c: char)
    ensures var p, n := PieceText(QuotePiece(c)), c as int;
      p == if n == 0x22 then "\\\"" else if n == 0x5C then "\\\\" else if n == 0x0A then "\\n"
           else if n == 0x0D then "\\r" else if n == 0x09 then "\\t"
           else if n < 0x20 then ['\\', 'u', '0', '0', LOWER[n / 16], LOWER[n % 16]] else [c]
  {
    assert forall k :: 0 <= k < 10 ==> LOWER[k] as int == k + '0' as int;
    assert forall k :: 10 <= k < 16 ==> LOWER[k] as int == k - 10 + 'a' as int;
  }
}

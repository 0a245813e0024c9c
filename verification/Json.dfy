/**
The JSON subset of the wall: a grammar given by concrete syntax trees (every character of the text is
accounted for), the values trees denote, and the text-to-tree function the parser follows.

The grammar is RFC 8259 sections 2 to 7 with these changes: numbers are integers of 64 bits and may
have leading zeros, `\u` escapes must not be surrogates, and an object's keys must differ.
*/
module Json {
  import opened Wrappers

  datatype Value =
    | Null
    | Bool(b: bool)
    | Int(n: int)
    | Str(s: string)
    | Arr(items: seq<Value>)
    | Obj(fields: map<string, Value>)

  /** One character of a string literal as it is written. */
  datatype Piece = Plain(c: char) | Short(e: char) | Hex(d0: char, d1: char, d2: char, d3: char)

  datatype Cst =
    | CNull
    | CBool(b: bool)
    | CNum(neg: bool, digits: string)
    | CStr(pieces: seq<Piece>)
    | CArr(ws: string, items: seq<Item>)        // `ws` only matters when there are no items
    | CObj(ws: string, members: seq<Member>)

  datatype Item = Item(pre: string, value: Cst, post: string)

  datatype Member = Member(pre: string, key: seq<Piece>, mid: string, gap: string, value: Cst, post: string)

  const MIN_INT := -0x8000_0000_0000_0000
  const MAX_INT := 0x7fff_ffff_ffff_ffff

  // ------------------------------------------------------------ characters

  predicate IsWs(c: char) {
    c == ' ' || c == '\t' || c == '\n' || c == '\r'
  }

  predicate AllWs(s: string) {
    forall k :: 0 <= k < |s| ==> IsWs(s[k])
  }

  predicate IsDigit(c: char) {
    '0' <= c <= '9'
  }

  predicate AllDigits(s: string) {
    forall k :: 0 <= k < |s| ==> IsDigit(s[k])
  }

  predicate IsHex(c: char) {
    IsDigit(c) || 'a' <= c <= 'f' || 'A' <= c <= 'F'
  }

  function HexValue(c: char): (v: nat)
    requires IsHex(c)
    ensures v < 16
  {
    if IsDigit(c) then c as int - '0' as int
    else if 'a' <= c <= 'f' then c as int - 'a' as int + 10
    else c as int - 'A' as int + 10
  }

  function Code(a: char, b: char, c: char, d: char): (v: nat)
    requires IsHex(a) && IsHex(b) && IsHex(c) && IsHex(d)
    ensures v < 0x1_0000
  {
    ((HexValue(a) * 16 + HexValue(b)) * 16 + HexValue(c)) * 16 + HexValue(d)
  }

  predicate Surrogate(v: nat) {
    0xD800 <= v < 0xE000
  }

  predicate IsShort(e: char) {
    e in "\"\\/bfnrt"
  }

  function ShortChar(e: char): char {
    if e == 'b' then 8 as char
    else if e == 'f' then 12 as char
    else if e == 'n' then '\n'
    else if e == 'r' then '\r'
    else if e == 't' then '\t'
    else e
  }

  // ------------------------------------------------------------ what the grammar allows, and means

  predicate PieceOk(p: Piece) {
    match p
    case Plain(c) => c != '"' && c != '\\' && c as int >= 0x20
    case Short(e) => IsShort(e)
    case Hex(a, b, c, d) => IsHex(a) && IsHex(b) && IsHex(c) && IsHex(d) && !Surrogate(Code(a, b, c, d))
  }

  predicate PiecesOk(ps: seq<Piece>) {
    forall k :: 0 <= k < |ps| ==> PieceOk(ps[k])
  }

  function PieceText(p: Piece): string {
    match p
    case Plain(c) => [c]
    case Short(e) => ['\\', e]
    case Hex(a, b, c, d) => ['\\', 'u', a, b, c, d]
  }

  function PieceChar(p: Piece): char
    requires PieceOk(p)
  {
    match p
    case Plain(c) => c
    case Short(e) => ShortChar(e)
    case Hex(a, b, c, d) => Code(a, b, c, d) as char
  }

  function PiecesText(ps: seq<Piece>): string {
    if ps == [] then "" else PieceText(ps[0]) + PiecesText(ps[1..])
  }

  function Content(ps: seq<Piece>): string
    requires PiecesOk(ps)
  {
    if ps == [] then "" else [PieceChar(ps[0])] + Content(ps[1..])
  }

  function Nat(digits: string): nat
    requires AllDigits(digits)
  {
    if digits == "" then 0
    else Nat(digits[..|digits| - 1]) * 10 + (digits[|digits| - 1] as int - '0' as int)
  }

  function Number(neg: bool, digits: string): int
    requires AllDigits(digits)
  {
    if neg then 0 - Nat(digits) else Nat(digits)
  }

  predicate WellFormed(c: Cst) {
    match c
    case CNull => true
    case CBool(_) => true
    case CNum(neg, digits) => digits != "" && AllDigits(digits) && MIN_INT <= Number(neg, digits) <= MAX_INT
    case CStr(ps) => PiecesOk(ps)
    case CArr(ws, items) => AllWs(ws) && (items != [] ==> ws == "") && ItemsOk(items)
    case CObj(ws, members) => AllWs(ws) && (members != [] ==> ws == "") && MembersOk(members, {})
  }

  predicate ItemsOk(items: seq<Item>) {
    items == [] ||
    (AllWs(items[0].pre) && WellFormed(items[0].value) && AllWs(items[0].post) && ItemsOk(items[1..]))
  }

  /** Members in order; `seen` holds the keys (after unescaping) that came before. */
  predicate MembersOk(ms: seq<Member>, seen: set<string>) {
    ms == [] ||
    var m := ms[0];
    && AllWs(m.pre) && PiecesOk(m.key) && AllWs(m.mid) && AllWs(m.gap) && WellFormed(m.value) && AllWs(m.post)
    && Content(m.key) !in seen && MembersOk(ms[1..], seen + {Content(m.key)})
  }

  function Quoted(ps: seq<Piece>): string {
    "\"" + PiecesText(ps) + "\""
  }

  /** The text a tree stands for. */
  function Text(c: Cst): string {
    match c
    case CNull => "null"
    case CBool(b) => if b then "true" else "false"
    case CNum(neg, digits) => (if neg then "-" else "") + digits
    case CStr(ps) => Quoted(ps)
    case CArr(ws, items) => if items == [] then "[" + ws + "]" else "[" + ItemsText(items) + "]"
    case CObj(ws, members) => if members == [] then "{" + ws + "}" else "{" + MembersText(members) + "}"
  }

  function ItemText(it: Item): string {
    it.pre + Text(it.value) + it.post
  }

  function ItemsText(items: seq<Item>): string {
    if items == [] then ""
    else if |items| == 1 then ItemText(items[0])
    else ItemText(items[0]) + "," + ItemsText(items[1..])
  }

  function MemberText(m: Member): string {
    m.pre + Quoted(m.key) + m.mid + ":" + m.gap + Text(m.value) + m.post
  }

  function MembersText(ms: seq<Member>): string {
    if ms == [] then ""
    else if |ms| == 1 then MemberText(ms[0])
    else MemberText(ms[0]) + "," + MembersText(ms[1..])
  }

  /** The value a tree denotes. */
  function Meaning(c: Cst): Value
    requires WellFormed(c)
  {
    match c
    case CNull => Null
    case CBool(b) => Bool(b)
    case CNum(neg, digits) => Int(Number(neg, digits))
    case CStr(ps) => Str(Content(ps))
    case CArr(_, items) => Arr(ItemsMeaning(items))
    case CObj(_, members) => Obj(MembersMeaning(members, {}))
  }

  function ItemsMeaning(items: seq<Item>): seq<Value>
    requires ItemsOk(items)
  {
    if items == [] then [] else [Meaning(items[0].value)] + ItemsMeaning(items[1..])
  }

  function MembersMeaning(ms: seq<Member>, ghost seen: set<string>): map<string, Value>
    requires MembersOk(ms, seen)
  {
    if ms == [] then map[]
    else
      var k := Content(ms[0].key);
      map[k := Meaning(ms[0].value)] + MembersMeaning(ms[1..], seen + {k})
  }

  /** THE LANGUAGE: `text` is one value between blanks, and denotes `v`. */
  ghost predicate Derives(text: string, v: Value) {
    exists pre: string, c: Cst, post: string ::
      AllWs(pre) && WellFormed(c) && AllWs(post) && text == pre + Text(c) + post && v == Meaning(c)
  }

  // ------------------------------------------------------------ from text to tree

  function TakeWs(s: string): string {
    if s == "" || !IsWs(s[0]) then "" else [s[0]] + TakeWs(s[1..])
  }

  function SkipWs(s: string): (r: string)
    ensures |r| <= |s|
    ensures r == "" || !IsWs(r[0])
  {
    if s == "" || !IsWs(s[0]) then s else SkipWs(s[1..])
  }

  predicate At(s: string, c: char) {
    s != "" && s[0] == c
  }

  function TakeDigits(s: string): (d: string)
    ensures AllDigits(d)
  {
    if s == "" || !IsDigit(s[0]) then "" else [s[0]] + TakeDigits(s[1..])
  }

  function SkipDigits(s: string): (r: string)
    ensures |r| <= |s|
    ensures r == "" || !IsDigit(r[0])
    ensures TakeDigits(s) != "" ==> |r| < |s|
  {
    if s == "" || !IsDigit(s[0]) then s else SkipDigits(s[1..])
  }

  /** The text after the opening quote, up to and over the closing one. */
  function ParsePieces(s: string): (r: Option<(seq<Piece>, string)>)
    ensures r.Some? ==> |r.value.1| < |s| && PiecesOk(r.value.0)
  {
    if s == "" then None
    else if s[0] == '"' then Some(([], s[1..]))
    else match ParsePiece(s)
      case None => None
      case Some((p, rest)) =>
        match ParsePieces(rest)
        case None => None
        case Some((ps, end)) => Some(([p] + ps, end))
  }

  function ParsePiece(s: string): (r: Option<(Piece, string)>)
    requires s != "" && s[0] != '"'
    ensures r.Some? ==> |r.value.1| < |s| && PieceOk(r.value.0)
  {
    if s[0] != '\\' then
      if s[0] as int < 0x20 then None else Some((Plain(s[0]), s[1..]))
    else if |s| < 2 then None
    else if IsShort(s[1]) then Some((Short(s[1]), s[2..]))
    else if s[1] != 'u' || |s| < 6 then None
    else if !(IsHex(s[2]) && IsHex(s[3]) && IsHex(s[4]) && IsHex(s[5])) then None
    else if Surrogate(Code(s[2], s[3], s[4], s[5])) then None
    else Some((Hex(s[2], s[3], s[4], s[5]), s[6..]))
  }

  function ParseString(s: string): (r: Option<(seq<Piece>, string)>)
    ensures r.Some? ==> |r.value.1| < |s| && PiecesOk(r.value.0)
  {
    if At(s, '"') then ParsePieces(s[1..]) else None
  }

  function ParseNumber(s: string): (r: Option<(Cst, string)>)
    ensures r.Some? ==> |r.value.1| < |s| && WellFormed(r.value.0)
  {
    var neg := At(s, '-');
    var body := if neg then s[1..] else s;
    var digits := TakeDigits(body);
    var rest := SkipDigits(body);
    if digits == "" || At(rest, '.') || At(rest, 'e') || At(rest, 'E') then None
    else if !(MIN_INT <= Number(neg, digits) <= MAX_INT) then None
    else Some((CNum(neg, digits), rest))
  }

  function ParseValue(s: string): (r: Option<(Cst, string)>)
    ensures r.Some? ==> |r.value.1| < |s| && WellFormed(r.value.0)
    decreases |s|, 0
  {
    if s == "" then None
    else if s[0] == '{' then ParseObject(s[1..])
    else if s[0] == '[' then ParseArray(s[1..])
    else if s[0] == '"' then
      match ParseString(s)
      case None => None
      case Some((ps, rest)) => Some((CStr(ps), rest))
    else if "true" <= s then Some((CBool(true), s[4..]))
    else if "false" <= s then Some((CBool(false), s[5..]))
    else if "null" <= s then Some((CNull, s[4..]))
    else if s[0] == '-' || IsDigit(s[0]) then ParseNumber(s)
    else None
  }

  function ParseArray(s: string): (r: Option<(Cst, string)>)
    ensures r.Some? ==> |r.value.1| < |s| && WellFormed(r.value.0)
    decreases |s|, 3
  {
    TakeWsOk(s);
    if At(SkipWs(s), ']') then Some((CArr(TakeWs(s), []), SkipWs(s)[1..]))
    else match ParseItems(TakeWs(s), SkipWs(s))
      case None => None
      case Some((items, rest)) => Some((CArr("", items), rest))
  }

  /** Items up to the closing bracket; the blanks `pre` have already been read. */
  function ParseItems(pre: string, s: string): (r: Option<(seq<Item>, string)>)
    requires AllWs(pre)
    ensures r.Some? ==> |r.value.1| < |s| && r.value.0 != [] && ItemsOk(r.value.0)
    decreases |s|, 2
  {
    TakeWsOk(s);
    match ParseValue(SkipWs(s))
    case None => None
    case Some((c, after)) =>
      TakeWsOk(after);
      var item := Item(pre + TakeWs(s), c, TakeWs(after));
      var next := SkipWs(after);
      if At(next, ']') then Some(([item], next[1..]))
      else if !At(next, ',') then None
      else match ParseItems("", next[1..])
        case None => None
        case Some((items, rest)) => Some(([item] + items, rest))
  }

  function ParseObject(s: string): (r: Option<(Cst, string)>)
    ensures r.Some? ==> |r.value.1| < |s| && WellFormed(r.value.0)
    decreases |s|, 3
  {
    TakeWsOk(s);
    if At(SkipWs(s), '}') then Some((CObj(TakeWs(s), []), SkipWs(s)[1..]))
    else match ParseMembers(TakeWs(s), SkipWs(s), {})
      case None => None
      case Some((ms, rest)) => Some((CObj("", ms), rest))
  }

  /** One member, without the separator after it. */
  function ParseMember(pre: string, s: string): (r: Option<(Member, string)>)
    requires AllWs(pre)
    ensures r.Some? ==> |r.value.1| < |s| && MembersOk([r.value.0], {})
    decreases |s|, 1
  {
    TakeWsOk(s);
    match ParseString(SkipWs(s))
    case None => None
    case Some((key, s1)) =>
      TakeWsOk(s1);
      if !At(SkipWs(s1), ':') then None
      else
        var s2 := SkipWs(s1)[1..];
        TakeWsOk(s2);
        match ParseValue(SkipWs(s2))
        case None => None
        case Some((c, after)) =>
          TakeWsOk(after);
          Some((Member(pre + TakeWs(s), key, TakeWs(s1), TakeWs(s2), c, TakeWs(after)), SkipWs(after)))
  }

  function ParseMembers(pre: string, s: string, seen: set<string>): (r: Option<(seq<Member>, string)>)
    requires AllWs(pre)
    ensures r.Some? ==> |r.value.1| < |s| && r.value.0 != [] && MembersOk(r.value.0, seen)
    decreases |s|, 2
  {
    match ParseMember(pre, s)
    case None => None
    case Some((m, next)) =>
      assert MembersOk([m], {});
      if Content(m.key) in seen then None
      else if At(next, '}') then Some(([m], next[1..]))
      else if !At(next, ',') then None
      else match ParseMembers("", next[1..], seen + {Content(m.key)})
        case None => None
        case Some((ms, rest)) => Some(([m] + ms, rest))
  }

  lemma {:induction false} TakeWsOk(s: string)
    ensures AllWs(TakeWs(s))
  {
    if s != "" && IsWs(s[0]) { TakeWsOk(s[1..]); }
  }

  /** The whole text: blanks, one value, blanks, and nothing after. */
  function Parse(s: string): Option<Value> {
    match ParseValue(SkipWs(s))
    case None => None
    case Some((c, rest)) => if SkipWs(rest) == "" then Some(Meaning(c)) else None
  }
}

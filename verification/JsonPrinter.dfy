/** The printing side: string literals, and the one-line form of a plan, read back by the parser. */
module JsonPrinter {
  import opened Wrappers
  import opened Json
  import opened JsonGrammar

  // ------------------------------------------------------------ string literals

  function HexDigit(n: nat): (c: char)
    requires n < 16
    ensures IsHex(c) && HexValue(c) == n
  {
    if n < 10 then (n + '0' as int) as char else (n - 10 + 'a' as int) as char
  }

  function QuotePiece(c: char): Piece {
    if c == '"' || c == '\\' then Short(c)
    else if c == '\n' then Short('n')
    else if c == '\r' then Short('r')
    else if c == '\t' then Short('t')
    else if c as int < 0x20 then Hex('0', '0', HexDigit(c as int / 16), HexDigit(c as int % 16))
    else Plain(c)
  }

  function QuotePieces(s: string): seq<Piece> {
    if s == "" then [] else [QuotePiece(s[0])] + QuotePieces(s[1..])
  }

  lemma QuotePieceOk(c: char)
    ensures PieceOk(QuotePiece(c)) && PieceChar(QuotePiece(c)) == c
  {
  }

  /** Quoting yields a string literal of the grammar whose content is the string. */
  lemma {:induction false} QuoteOk(s: string)
    ensures PiecesOk(QuotePieces(s)) && Content(QuotePieces(s)) == s
  {
    if s != "" {
      QuotePieceOk(s[0]);
      QuoteOk(s[1..]);
    }
  }

  lemma {:induction false} PiecesTextSnoc(ps: seq<Piece>, p: Piece)
    ensures PiecesText(ps + [p]) == PiecesText(ps) + PieceText(p)
  {
    if ps == [] {
      assert ps + [p] == [p];
    } else {
      assert (ps + [p])[1..] == ps[1..] + [p];
      PiecesTextSnoc(ps[1..], p);
    }
  }

  lemma {:induction false} QuotePiecesSnoc(s: string, c: char)
    ensures QuotePieces(s + [c]) == QuotePieces(s) + [QuotePiece(c)]
  {
    if s == "" {
      assert s + [c] == [c];
    } else {
      assert (s + [c])[1..] == s[1..] + [c];
      QuotePiecesSnoc(s[1..], c);
    }
  }

  method Quote(s: string) returns (out: string)
    ensures out == Quoted(QuotePieces(s))
  {
    out := "\"";
    for k := 0 to |s|
      invariant out == "\"" + PiecesText(QuotePieces(s[..k]))
    {
      var c := s[k];
      assert s[..k + 1] == s[..k] + [c];
      QuotePiecesSnoc(s[..k], c);
      PiecesTextSnoc(QuotePieces(s[..k]), QuotePiece(c));
      ghost var before := PiecesText(QuotePieces(s[..k]));
      if c == '"' { out := out + "\\\""; }
      else if c == '\\' { out := out + "\\\\"; }
      else if c == '\n' { out := out + "\\n"; }
      else if c == '\r' { out := out + "\\r"; }
      else if c == '\t' { out := out + "\\t"; }
      else if c as int < 0x20 { out := out + ['\\', 'u', '0', '0', HexDigit(c as int / 16), HexDigit(c as int % 16)]; }
      else { out := out + [c]; }
      Last("\"", before, PieceText(QuotePiece(c)));
    }
    assert s[..|s|] == s;
    out := out + "\"";
  }

  /** Every string survives printing and parsing. */
  lemma QuoteRoundTrip(s: string)
    ensures Parse(Quoted(QuotePieces(s))) == Some(Str(s))
  {
    QuoteOk(s);
    TreeParses(CStr(QuotePieces(s)));
  }

  lemma TreeParses(c: Cst)
    requires WellFormed(c)
    ensures Parse(Text(c)) == Some(Meaning(c))
  {
    TextHead(c);
    WsBack("", Text(c));
    Nothing(Text(c));
    ValueBack(c, "");
  }

  /** What a literal is made of on the wire: no raw control character, and every quote or backslash of
      the string introduced by a backslash. */
  lemma QuoteEscapes(s: string, k: nat)
    requires k < |s|
    ensures |QuotePieces(s)| == |s|
    ensures s[k] as int < 0x20 || s[k] == '"' || s[k] == '\\' ==>
      |PieceText(QuotePieces(s)[k])| >= 2 && PieceText(QuotePieces(s)[k])[0] == '\\'
    ensures forall j :: 0 <= j < |PieceText(QuotePieces(s)[k])| ==> PieceText(QuotePieces(s)[k])[j] as int >= 0x20
  {
    if k > 0 { QuoteEscapes(s[1..], k - 1); }
    QuoteLength(s);
  }

  lemma {:induction false} QuoteLength(s: string)
    ensures |QuotePieces(s)| == |s|
  {
    if s != "" { QuoteLength(s[1..]); }
  }

  // ------------------------------------------------------------ numbers

  function Decimal(n: nat): (d: string)
    ensures d != "" && AllDigits(d) && (d[0] == '0' ==> n == 0)
  {
    if n < 10 then [(n + '0' as int) as char] else Decimal(n / 10) + [(n % 10 + '0' as int) as char]
  }

  lemma {:induction false} DecimalReads(n: nat)
    ensures Nat(Decimal(n)) == n
  {
    var d := Decimal(n);
    if n >= 10 {
      DecimalReads(n / 10);
      assert d[..|d| - 1] == Decimal(n / 10);
    } else {
      assert d[..|d| - 1] == "";
    }
  }

  // ------------------------------------------------------------ plans

  datatype Plan = Plan(schemaVersion: nat, platform: string, argv: seq<string>, allowlist: seq<string>, note: string)

  function StrTree(s: string): Cst {
    CStr(QuotePieces(s))
  }

  function StrItems(xs: seq<string>): seq<Item> {
    if xs == [] then [] else [Item("", StrTree(xs[0]), "")] + StrItems(xs[1..])
  }

  function Field(key: string, value: Cst): Member {
    Member("", QuotePieces(key), "", "", value, "")
  }

  /** An object's members for a list of keys and their values, in order. */
  function Fields(keys: seq<string>, values: seq<Cst>): seq<Member>
    requires |keys| == |values|
  {
    if keys == [] then [] else [Field(keys[0], values[0])] + Fields(keys[1..], values[1..])
  }

  const KEYS: seq<string> := ["schema_version", "platform", "argv", "allowlist", "note"]

  function PlanValues(p: Plan): seq<Cst> {
    [CNum(false, Decimal(p.schemaVersion)), StrTree(p.platform), CArr("", StrItems(p.argv)),
     CArr("", StrItems(p.allowlist)), StrTree(p.note)]
  }

  function PlanTree(p: Plan): Cst {
    CObj("", Fields(KEYS, PlanValues(p)))
  }

  function Strs(xs: seq<string>): seq<Value> {
    seq(|xs|, k requires 0 <= k < |xs| => Str(xs[k]))
  }

  function PlanValue(p: Plan): Value {
    Obj(map["schema_version" := Int(p.schemaVersion), "platform" := Str(p.platform), "argv" := Arr(Strs(p.argv)),
            "allowlist" := Arr(Strs(p.allowlist)), "note" := Str(p.note)])
  }

  lemma {:induction false} StrItemsOk(xs: seq<string>)
    ensures ItemsOk(StrItems(xs)) && ItemsMeaning(StrItems(xs)) == Strs(xs)
  {
    if xs != [] {
      QuoteOk(xs[0]);
      StrItemsOk(xs[1..]);
      assert StrItems(xs)[1..] == StrItems(xs[1..]);
      assert Strs(xs) == [Str(xs[0])] + Strs(xs[1..]);
    }
  }

  function Lookup(keys: seq<string>, values: seq<Value>): map<string, Value>
    requires |keys| == |values|
  {
    if keys == [] then map[] else map[keys[0] := values[0]] + Lookup(keys[1..], values[1..])
  }

  predicate Differ(keys: seq<string>) {
    forall i, j :: 0 <= i < j < |keys| ==> keys[i] != keys[j]
  }

  lemma {:induction false} FieldsOk(keys: seq<string>, trees: seq<Cst>, values: seq<Value>, seen: set<string>)
    requires |keys| == |trees| == |values| && Differ(keys)
    requires forall j :: 0 <= j < |keys| ==> keys[j] !in seen && WellFormed(trees[j]) && Meaning(trees[j]) == values[j]
    ensures MembersOk(Fields(keys, trees), seen)
    ensures MembersMeaning(Fields(keys, trees), seen) == Lookup(keys, values)
  {
    if keys != [] {
      QuoteOk(keys[0]);
      forall j | 0 <= j < |keys| - 1 ensures keys[1..][j] !in seen + {keys[0]} {
        assert keys[1..][j] == keys[j + 1];
      }
      FieldsOk(keys[1..], trees[1..], values[1..], seen + {keys[0]});
      assert Fields(keys, trees)[1..] == Fields(keys[1..], trees[1..]);
    }
  }

  lemma {:induction false} LookupExact(keys: seq<string>, values: seq<Value>)
    requires |keys| == |values| && Differ(keys)
    ensures Lookup(keys, values).Keys == set k | k in keys
    ensures forall j :: 0 <= j < |keys| ==> keys[j] in Lookup(keys, values) && Lookup(keys, values)[keys[j]] == values[j]
  {
    if keys != [] {
      LookupExact(keys[1..], values[1..]);
      assert forall k :: k in keys <==> k == keys[0] || k in keys[1..];
      forall j | 0 <= j < |keys| ensures keys[j] in Lookup(keys, values) && Lookup(keys, values)[keys[j]] == values[j] {
        if j > 0 { assert keys[j] == keys[1..][j - 1] && values[j] == values[1..][j - 1]; }
      }
    }
  }

  lemma FiveKeys(k: seq<string>, v: seq<Value>)
    requires |k| == |v| == 5 && Differ(k)
    ensures Lookup(k, v) == map[k[0] := v[0], k[1] := v[1], k[2] := v[2], k[3] := v[3], k[4] := v[4]]
  {
    LookupExact(k, v);
    var m := map[k[0] := v[0], k[1] := v[1], k[2] := v[2], k[3] := v[3], k[4] := v[4]];
    assert k == [k[0], k[1], k[2], k[3], k[4]];
    assert m.Keys == set x | x in k;
  }

  lemma KeysDiffer()
    ensures Differ(KEYS)
  {
    assert |KEYS[0]| == 14 && |KEYS[1]| == 8 && |KEYS[2]| == 4 && |KEYS[3]| == 9 && |KEYS[4]| == 4;
    assert KEYS[2][0] != KEYS[4][0];
  }

  function PlanParts(p: Plan): seq<Value> {
    [Int(p.schemaVersion), Str(p.platform), Arr(Strs(p.argv)), Arr(Strs(p.allowlist)), Str(p.note)]
  }

  /** The tree behind the printed plan is in the grammar and denotes exactly the plan. */
  lemma PlanTreeOk(p: Plan)
    requires p.schemaVersion <= MAX_INT
    ensures WellFormed(PlanTree(p)) && Meaning(PlanTree(p)) == PlanValue(p)
  {
    PlanPartsOk(p);
    PlanOfParts(PlanValues(p), PlanParts(p));
  }

  lemma PlanPartsOk(p: Plan)
    requires p.schemaVersion <= MAX_INT
    ensures |PlanValues(p)| == |PlanParts(p)| == 5
    ensures forall j :: 0 <= j < 5 ==> WellFormed(PlanValues(p)[j]) && Meaning(PlanValues(p)[j]) == PlanParts(p)[j]
  {
    forall j | 0 <= j < 5 ensures WellFormed(PlanValues(p)[j]) && Meaning(PlanValues(p)[j]) == PlanParts(p)[j] {
      PlanPartOk(p, j);
    }
  }

  lemma PlanOfParts(trees: seq<Cst>, v: seq<Value>)
    requires |trees| == |v| == 5
    requires forall j :: 0 <= j < 5 ==> WellFormed(trees[j]) && Meaning(trees[j]) == v[j]
    ensures MembersOk(Fields(KEYS, trees), {})
    ensures MembersMeaning(Fields(KEYS, trees), {}) ==
      map["schema_version" := v[0], "platform" := v[1], "argv" := v[2], "allowlist" := v[3], "note" := v[4]]
  {
    KeysDiffer();
    FieldsOk(KEYS, trees, v, {});
    FiveKeys(KEYS, v);
  }

  lemma PlanPartOk(p: Plan, j: nat)
    requires p.schemaVersion <= MAX_INT && j < 5
    ensures WellFormed(PlanValues(p)[j]) && Meaning(PlanValues(p)[j]) == PlanParts(p)[j]
  {
    if j == 0 { DecimalReads(p.schemaVersion); }
    else if j == 1 { QuoteOk(p.platform); }
    else if j == 2 { StrItemsOk(p.argv); }
    else if j == 3 { StrItemsOk(p.allowlist); }
    else { QuoteOk(p.note); }
  }

  // ------------------------------------------------------------ the printed line

  /** A string whose characters all stand for themselves inside a literal. */
  predicate AllPlain(s: string) {
    forall k :: 0 <= k < |s| ==> s[k] != '"' && s[k] != '\\' && s[k] as int >= 0x20
  }

  lemma {:induction false} PlainQuoted(s: string)
    requires AllPlain(s)
    ensures PiecesText(QuotePieces(s)) == s
  {
    if s != "" { PlainQuoted(s[1..]); }
  }

  lemma {:induction false} ItemsTextSnoc(items: seq<Item>, it: Item)
    ensures ItemsText(items + [it]) == (if items == [] then "" else ItemsText(items) + ",") + ItemText(it)
  {
    if items == [] {
      assert items + [it] == [it];
      Nothing(ItemText(it));
    } else {
      assert (items + [it])[1..] == items[1..] + [it];
      ItemsTextSnoc(items[1..], it);
      if |items| > 1 {
        Last3(ItemText(items[0]), ",", ItemsText(items[1..]) + ",", ItemText(it));
        assert ItemText(items[0]) + "," + (ItemsText(items[1..]) + ",") == ItemText(items[0]) + "," + ItemsText(items[1..]) + ",";
      }
    }
  }

  lemma {:induction false} StrItemsSnoc(xs: seq<string>, x: string)
    ensures StrItems(xs + [x]) == StrItems(xs) + [Item("", StrTree(x), "")]
  {
    if xs == [] {
      assert xs + [x] == [x];
    } else {
      assert (xs + [x])[1..] == xs[1..] + [x];
      StrItemsSnoc(xs[1..], x);
    }
  }

  lemma {:induction false} StrItemsLength(xs: seq<string>)
    ensures |StrItems(xs)| == |xs|
  {
    if xs != [] { StrItemsLength(xs[1..]); }
  }

  /** The comma-separated literals of a list, appended to what is already printed. */
  method PushAll(before: string, xs: seq<string>) returns (s: string)
    ensures s == before + ItemsText(StrItems(xs))
  {
    s := before;
    Nothing(before);
    for k := 0 to |xs|
      invariant s == before + ItemsText(StrItems(xs[..k]))
    {
      ghost var done := ItemsText(StrItems(xs[..k]));
      assert xs[..k + 1] == xs[..k] + [xs[k]];
      StrItemsSnoc(xs[..k], xs[k]);
      StrItemsLength(xs[..k]);
      ItemsTextSnoc(StrItems(xs[..k]), Item("", StrTree(xs[k]), ""));
      if k > 0 { s := s + ","; }
      var q := Quote(xs[k]);
      assert ItemText(Item("", StrTree(xs[k]), "")) == q;
      Pushed(before, done, if k > 0 then "," else "", q);
      s := s + q;
    }
    assert xs[..|xs|] == xs;
  }

  lemma Pushed(a: string, b: string, c: string, d: string)
    ensures (a + b + c) + d == a + (b + c + d)
    ensures c == "" ==> (a + b) + d == a + (c + d) || b != ""
  {
  }

  function PlanLine(p: Plan): string {
    "{" + "\"schema_version\":" + Decimal(p.schemaVersion) + ",\"platform\":" + Quoted(QuotePieces(p.platform))
    + ",\"argv\":[" + ItemsText(StrItems(p.argv)) + "],\"allowlist\":[" + ItemsText(StrItems(p.allowlist))
    + "],\"note\":" + Quoted(QuotePieces(p.note)) + "}"
  }

  method ToJson(p: Plan) returns (s: string)
    ensures s == PlanLine(p)
  {
    s := "{" + "\"schema_version\":" + Decimal(p.schemaVersion);
    var platform := Quote(p.platform);
    s := s + ",\"platform\":" + platform;
    s := s + ",\"argv\":[";
    s := PushAll(s, p.argv);
    s := s + "],\"allowlist\":[";
    s := PushAll(s, p.allowlist);
    var note := Quote(p.note);
    s := s + "],\"note\":" + note + "}";
  }

  lemma FieldText(key: string, value: Cst)
    requires AllPlain(key)
    ensures MemberText(Field(key, value)) == "\"" + key + "\":" + Text(value)
  {
    PlainQuoted(key);
    Nothing(Quoted(QuotePieces(key)));
    var head := "\"" + key + "\"" + ":";
    assert MemberText(Field(key, value)) == head + Text(value);
    assert head == "\"" + key + "\":";
  }

  /** The text of the members from the n-th key on. */
  lemma FieldsText(keys: seq<string>, values: seq<Cst>)
    requires |keys| == |values| && keys != [] && AllPlain(keys[0])
    ensures MembersText(Fields(keys, values)) ==
      if |keys| == 1 then "\"" + keys[0] + "\":" + Text(values[0])
      else "\"" + keys[0] + "\":" + Text(values[0]) + "," + MembersText(Fields(keys[1..], values[1..]))
  {
    FieldText(keys[0], values[0]);
    FieldsLength(keys, values);
    assert Fields(keys, values)[1..] == Fields(keys[1..], values[1..]);
  }

  lemma {:induction false} FieldsLength(keys: seq<string>, values: seq<Cst>)
    requires |keys| == |values|
    ensures |Fields(keys, values)| == |keys|
  {
    if keys != [] { FieldsLength(keys[1..], values[1..]); }
  }

  function Keyed(key: string): string {
    "\"" + key + "\":"
  }

  /** Five fields in a row, written from left to right. */
  function Row(k: seq<string>, v: seq<string>): string
    requires |k| == |v| == 5
  {
    "{" + Keyed(k[0]) + v[0] + ("," + Keyed(k[1])) + v[1] + ("," + Keyed(k[2])) + v[2]
    + ("," + Keyed(k[3])) + v[3] + ("," + Keyed(k[4])) + v[4]
  }

  lemma Step(line: string, key: string, value: string, more: string)
    ensures line + ("," + (Keyed(key) + value + "," + more)) == (line + ("," + Keyed(key)) + value) + ("," + more)
  {
    var a := Keyed(key);
    assert line + ("," + (a + value + "," + more)) == (line + ("," + a) + value) + ("," + more);
  }

  lemma RowText(k: seq<string>, v: seq<Cst>, t: seq<string>)
    requires |k| == |v| == |t| == 5 && forall j :: 0 <= j < 5 ==> AllPlain(k[j]) && t[j] == Text(v[j])
    ensures "{" + MembersText(Fields(k, v)) == Row(k, t)
  {
    assert k[1..][1..] == k[2..] && k[2..][1..] == k[3..] && k[3..][1..] == k[4..];
    assert v[1..][1..] == v[2..] && v[2..][1..] == v[3..] && v[3..][1..] == v[4..];
    FieldsText(k, v); FieldsText(k[1..], v[1..]); FieldsText(k[2..], v[2..]); FieldsText(k[3..], v[3..]); FieldsText(k[4..], v[4..]);
    RowGlue(k, t, MembersText(Fields(k[1..], v[1..])), MembersText(Fields(k[2..], v[2..])), MembersText(Fields(k[3..], v[3..])));
  }

  lemma RowGlue(k: seq<string>, t: seq<string>, m1: string, m2: string, m3: string)
    requires |k| == |t| == 5
    requires m3 == Keyed(k[3]) + t[3] + "," + (Keyed(k[4]) + t[4])
    requires m2 == Keyed(k[2]) + t[2] + "," + m3
    requires m1 == Keyed(k[1]) + t[1] + "," + m2
    ensures "{" + (Keyed(k[0]) + t[0] + "," + m1) == Row(k, t)
  {
    var l0 := "{" + Keyed(k[0]) + t[0];
    assert "{" + (Keyed(k[0]) + t[0] + "," + m1) == l0 + ("," + m1);
    Step(l0, k[1], t[1], m2);
    var l1 := l0 + ("," + Keyed(k[1])) + t[1];
    Step(l1, k[2], t[2], m3);
    var l2 := l1 + ("," + Keyed(k[2])) + t[2];
    Step(l2, k[3], t[3], Keyed(k[4]) + t[4]);
    var l3 := l2 + ("," + Keyed(k[3])) + t[3];
    assert l3 + ("," + (Keyed(k[4]) + t[4])) == l3 + ("," + Keyed(k[4])) + t[4];
  }

  lemma Bracketed(line: string, c: string, items: string, d: string)
    ensures line + c + ("[" + items + "]") + d == line + (c + "[") + items + ("]" + d)
  {
  }

  lemma KeyedLiterals()
    ensures "{" + Keyed(KEYS[0]) == "{" + "\"schema_version\":"
    ensures "," + Keyed(KEYS[1]) == ",\"platform\":"
    ensures "," + Keyed(KEYS[2]) + "[" == ",\"argv\":["
    ensures "]" + ("," + Keyed(KEYS[3])) + "[" == "],\"allowlist\":["
    ensures "]" + ("," + Keyed(KEYS[4])) == "],\"note\":"
  {
  }

  /** The printed line is the text of the plan's tree. */
  lemma PlanLineIsTree(p: Plan)
    ensures PlanLine(p) == Text(PlanTree(p))
  {
    var argv, allow := ItemsText(StrItems(p.argv)), ItemsText(StrItems(p.allowlist));
    var platform, note := Quoted(QuotePieces(p.platform)), Quoted(QuotePieces(p.note));
    var t := [Decimal(p.schemaVersion), platform, "[" + argv + "]", "[" + allow + "]", note];
    PlanTexts(p, t);
    RowText(KEYS, PlanValues(p), t);
    KeyedLiterals();
    var l1 := "{" + Keyed(KEYS[0]) + t[0] + ("," + Keyed(KEYS[1])) + platform;
    Bracketed(l1, "," + Keyed(KEYS[2]), argv, "," + Keyed(KEYS[3]));
    var l2 := l1 + (("," + Keyed(KEYS[2])) + "[") + argv;
    PlanTail(l2, "," + Keyed(KEYS[3]), allow, "," + Keyed(KEYS[4]));
  }

  lemma PlanTail(line: string, c: string, items: string, d: string)
    ensures line + ("]" + c) + ("[" + items + "]") + d == line + ("]" + c + "[") + items + ("]" + d)
  {
    Bracketed(line, "]" + c, items, d);
  }

  lemma PlanTexts(p: Plan, t: seq<string>)
    requires t == [Decimal(p.schemaVersion), Quoted(QuotePieces(p.platform)), "[" + ItemsText(StrItems(p.argv)) + "]",
                   "[" + ItemsText(StrItems(p.allowlist)) + "]", Quoted(QuotePieces(p.note))]
    ensures forall j :: 0 <= j < 5 ==> AllPlain(KEYS[j]) && t[j] == Text(PlanValues(p)[j])
    ensures Fields(KEYS, PlanValues(p)) != []
  {
    FieldsLength(KEYS, PlanValues(p));
    forall j | 0 <= j < 5 ensures AllPlain(KEYS[j]) { KeyPlain(j); }
    forall j | 0 <= j < 5 ensures t[j] == Text(PlanValues(p)[j]) { PlanText(p, j); }
  }

  lemma KeyPlain(j: nat)
    requires j < 5
    ensures AllPlain(KEYS[j])
  {
  }

  lemma PlanText(p: Plan, j: nat)
    requires j < 5
    ensures Text(PlanValues(p)[j]) ==
      if j == 0 then Decimal(p.schemaVersion)
      else if j == 1 then Quoted(QuotePieces(p.platform))
      else if j == 2 then "[" + ItemsText(StrItems(p.argv)) + "]"
      else if j == 3 then "[" + ItemsText(StrItems(p.allowlist)) + "]"
      else Quoted(QuotePieces(p.note))
  {
    Nothing(Decimal(p.schemaVersion));
  }

  /** ROUND TRIP: the printed form of a plan parses, to exactly the object with the plan's parts. */
  lemma PlanRoundTrip(p: Plan)
    requires p.schemaVersion < 0x1_0000_0000
    ensures Parse(PlanLine(p)) == Some(PlanValue(p))
  {
    PlanTreeOk(p);
    PlanLineIsTree(p);
    TreeParses(PlanTree(p));
  }

  /** Field by field: what a reader of the line gets. */
  lemma PlanRead(p: Plan)
    requires p.schemaVersion < 0x1_0000_0000
    ensures Parse(PlanLine(p)) == Some(Obj(map[
      "schema_version" := Int(p.schemaVersion), "platform" := Str(p.platform),
      "argv" := Arr(seq(|p.argv|, k requires 0 <= k < |p.argv| => Str(p.argv[k]))),
      "allowlist" := Arr(seq(|p.allowlist|, k requires 0 <= k < |p.allowlist| => Str(p.allowlist[k]))),
      "note" := Str(p.note)]))
  {
    PlanRoundTrip(p);
    assert Strs(p.argv) == seq(|p.argv|, k requires 0 <= k < |p.argv| => Str(p.argv[k]));
    assert Strs(p.allowlist) == seq(|p.allowlist|, k requires 0 <= k < |p.allowlist| => Str(p.allowlist[k]));
  }

  /** So no two different plans print the same line. */
  lemma PlanLineInjective(p: Plan, q: Plan)
    requires p.schemaVersion < 0x1_0000_0000 && q.schemaVersion < 0x1_0000_0000 && PlanLine(p) == PlanLine(q)
    ensures p == q
  {
    PlanRoundTrip(p);
    PlanRoundTrip(q);
    var f, g := PlanValue(p).fields, PlanValue(q).fields;
    assert f["argv"] == g["argv"] && f["allowlist"] == g["allowlist"] && f["note"] == g["note"];
    assert f["platform"] == g["platform"] && f["schema_version"] == g["schema_version"];
    StrsInjective(p.argv, q.argv);
    StrsInjective(p.allowlist, q.allowlist);
  }

  lemma StrsInjective(xs: seq<string>, ys: seq<string>)
    requires Strs(xs) == Strs(ys)
    ensures xs == ys
  {
    assert |Strs(xs)| == |Strs(ys)|;
    forall k | 0 <= k < |xs| ensures xs[k] == ys[k] {
      assert Strs(xs)[k] == Strs(ys)[k];
    }
  }
}

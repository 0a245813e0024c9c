/** The 26-character event identifiers: 48 bits of time and 80 random bits in Crockford's base 32. */
module Ulid {
  const ALPHABET: string := "0123456789ABCDEFGHJKMNPQRSTVWXYZ"

  function Pow2(n: nat): (p: nat)
    ensures p > 0
  {
    if n == 0 then 1 else 2 * Pow2(n - 1)
  }

  predicate Bytes(rnd: seq<nat>) {
    |rnd| == 10 && forall k :: 0 <= k < 10 ==> rnd[k] < 256
  }

  const MAX_TIME: nat := 0x1_0000_0000_0000

  // ------------------------------------------------------------ the encoder

  /** Bit `pos` of the random part, counted from the most significant bit of the first byte. */
  function BitAt(rnd: seq<nat>, pos: nat): (b: nat)
    requires Bytes(rnd) && pos < 80
    ensures b < 2
  {
    rnd[pos / 8] / Pow2(7 - pos % 8) % 2
  }

  /** Five bits from `pos` on, read as a number. */
  function Five(rnd: seq<nat>, pos: nat, n: nat): (v: nat)
    requires Bytes(rnd) && pos + n <= 80
    ensures v < Pow2(n)
  {
    if n == 0 then 0 else Five(rnd, pos, n - 1) * 2 + BitAt(rnd, pos + n - 1)
  }

  function TimeDigit(ms: nat, i: nat): (d: nat)
    requires i < 10
    ensures d < 32
  {
    ms / Pow2(45 - 5 * i) % 32
  }

  lemma FiveBelow(rnd: seq<nat>, pos: nat)
    requires Bytes(rnd) && pos + 5 <= 80
    ensures Five(rnd, pos, 5) < 32
  {
    assert Pow2(5) == 2 * Pow2(4) && Pow2(4) == 2 * Pow2(3) && Pow2(3) == 2 * Pow2(2) && Pow2(2) == 4;
  }

  function RandomDigit(rnd: seq<nat>, i: nat): (d: nat)
    requires Bytes(rnd) && i < 16
    ensures d < 32
  {
    FiveBelow(rnd, 5 * i);
    Five(rnd, 5 * i, 5)
  }

  /** The identifier: ten characters of time, most significant first, then sixteen of five random
      bits each. */
  function Encoded(ms: nat, rnd: seq<nat>): (s: string)
    requires Bytes(rnd)
    ensures |s| == 26
  {
    seq(10, i requires 0 <= i < 10 => ALPHABET[TimeDigit(ms, i)]) +
    seq(16, i requires 0 <= i < 16 => ALPHABET[RandomDigit(rnd, i)])
  }

  method FiveBits(rnd: seq<nat>, i: nat) returns (v: nat)
    requires Bytes(rnd) && i < 16
    ensures v == RandomDigit(rnd, i)
  {
    v := 0;
    for k := 0 to 5
      invariant v == Five(rnd, 5 * i, k)
    {
      var pos := 5 * i + k;
      v := v * 2;
      if rnd[pos / 8] / Pow2(7 - pos % 8) % 2 == 1 { v := v + 1; }
    }
  }

  /** encodeULID fills an array of 26 characters in two loops. */
  method EncodeUlid(ms: nat, rnd: seq<nat>) returns (s: string)
    requires ms < MAX_TIME && Bytes(rnd)
    ensures s == Encoded(ms, rnd)
  {
    var out := new char[26](_ => '0');
    for i := 0 to 10
      invariant forall j :: 0 <= j < i ==> out[j] == Encoded(ms, rnd)[j]
    {
      out[i] := ALPHABET[ms / Pow2(45 - 5 * i) % 32];
    }
    for i := 0 to 16
      invariant forall j :: 0 <= j < 10 + i ==> out[j] == Encoded(ms, rnd)[j]
    {
      var v := FiveBits(rnd, i);
      assert Encoded(ms, rnd)[10 + i] == ALPHABET[v];
      out[10 + i] := ALPHABET[v];
    }
    s := out[..];
  }

  // ------------------------------------------------------------ the alphabet

  lemma AlphabetRises(i: nat, j: nat)
    requires i < j < 32
    ensures ALPHABET[i] < ALPHABET[j]
  {
    if j == i + 1 {
      NextRises(i);
    } else {
      NextRises(j - 1);
      AlphabetRises(i, j - 1);
    }
  }

  lemma NextRises(i: nat)
    requires i < 31
    ensures ALPHABET[i] < ALPHABET[i + 1]
  {
  }

  /** CROCKFORD'S ALPHABET: the ten figures and the capital letters but I, L, O and U, in rising order. */
  lemma AlphabetIs(c: char)
    ensures |ALPHABET| == 32
    ensures c in ALPHABET <==> ('0' <= c <= '9' || 'A' <= c <= 'Z') && c !in "ILOU"
    ensures forall i, j :: 0 <= i < j < 32 ==> ALPHABET[i] < ALPHABET[j]
  {
    forall i, j | 0 <= i < j < 32 ensures ALPHABET[i] < ALPHABET[j] { AlphabetRises(i, j); }
    var n := c as int;
    if c in ALPHABET {
      var k :| 0 <= k < 32 && ALPHABET[k] == c;
      AlphabetAt(k);
    } else if ('0' <= c <= '9' || 'A' <= c <= 'Z') && c !in "ILOU" {
      AlphabetAt(if n < 58 then n - 48 else if n < 73 then n - 55 else if n < 76 then n - 56 else if n < 79 then n - 57
                 else if n < 85 then n - 58 else n - 59);
    }
  }

  lemma AlphabetAt(k: nat)
    requires k < 32
    ensures ALPHABET[k] as int ==
      k + if k < 10 then 48 else if k < 18 then 55 else if k < 20 then 56 else if k < 22 then 57 else if k < 27 then 58 else 59
  {
  }

  /** The value of a character: its place in the alphabet. */
  function Place(c: char, from: nat): (n: nat)
    requires from <= 32
    ensures from <= n <= 32 && (n < 32 ==> ALPHABET[n] == c)
    decreases 32 - from
  {
    if from == 32 || ALPHABET[from] == c then from else Place(c, from + 1)
  }

  lemma {:induction false} PlaceOf(d: nat, from: nat)
    requires from <= d < 32
    ensures Place(ALPHABET[d], from) == d
    decreases d - from
  {
    if from < d {
      AlphabetRises(from, d);
      PlaceOf(d, from + 1);
    }
  }

  // ------------------------------------------------------------ decoding the time

  /** The number that the first `n` characters spell in base 32. */
  function TimeOf(s: string, n: nat): nat
    requires n <= |s|
  {
    if n == 0 then 0 else TimeOf(s, n - 1) * 32 + Place(s[n - 1], 0)
  }

  lemma DivDiv(a: nat, b: nat, c: nat)
    requires b > 0 && c > 0
    ensures a / (b * c) == a / b / c
  {
    var q := a / b;
    var r := a % b;
    assert a == b * q + r;
    var q2 := q / c;
    var r2 := q % c;
    assert q == c * q2 + r2;
    assert a == b * (c * q2 + r2) + r;
    assert b * (c * q2 + r2) == (b * c) * q2 + b * r2 by { Spread(b, c * q2, r2); Assoc(b, c, q2); }
    var m := b * r2 + r;
    assert 0 <= m < b * c by { Below(b, r2, c, r); }
    Quotient(a, b * c, q2, m);
  }

  lemma Spread(a: int, b: int, c: int)
    ensures a * (b + c) == a * b + a * c
  {
  }

  lemma Assoc(a: int, b: int, c: int)
    ensures a * (b * c) == (a * b) * c
  {
  }

  lemma Below(b: nat, r2: nat, c: nat, r: nat)
    requires r2 < c && r < b
    ensures b * r2 + r < b * c
  {
    assert b * (r2 + 1) <= b * c;
    Spread(b, r2, 1);
  }

  lemma Quotient(a: nat, b: nat, q: nat, r: nat)
    requires b > 0 && r < b && a == b * q + r
    ensures a / b == q
  {
    var x := a / b;
    assert a == b * x + a % b;
    Ordered(b, x, q);
    Ordered(b, q, x);
  }

  lemma Ordered(b: nat, x: nat, q: nat)
    requires b > 0
    ensures x < q ==> b * x + b <= b * q
  {
    if x < q {
      Spread(b, x, 1);
      assert b * (x + 1) <= b * q;
    }
  }

  lemma {:induction false} Pow2Sum(a: nat, b: nat)
    ensures Pow2(a + b) == Pow2(a) * Pow2(b)
  {
    if b > 0 {
      Pow2Sum(a, b - 1);
      assert a + b - 1 == a + (b - 1);
      Assoc(Pow2(a), Pow2(b - 1), 2);
    }
  }

  lemma DigitAgain(ms: nat, n: nat)
    requires 0 < n <= 10
    ensures TimeDigit(ms, n - 1) == ms / Pow2(50 - 5 * n) % 32
  {
    assert 45 - 5 * (n - 1) == 50 - 5 * n;
  }

  lemma ShiftFive(ms: nat, k: nat)
    ensures ms / Pow2(k + 5) == ms / Pow2(k) / 32
  {
    Pow2Sum(k, 5);
    Pow2Values();
    DivDiv(ms, Pow2(k), 32);
  }

  lemma TopDigit(ms: nat)
    requires ms < MAX_TIME
    ensures ms / Pow2(50) == 0
  {
    Pow2Values();
    Pow2Sum(45, 5);
  }

  lemma NextChar(ms: nat, rnd: seq<nat>, n: nat)
    requires Bytes(rnd) && 0 < n <= 10
    ensures TimeOf(Encoded(ms, rnd), n) == TimeOf(Encoded(ms, rnd), n - 1) * 32 + TimeDigit(ms, n - 1)
  {
    var d := TimeDigit(ms, n - 1);
    assert Encoded(ms, rnd)[n - 1] == ALPHABET[d];
    PlaceOf(d, 0);
  }

  /** The first `n` characters of time spell the time's leading bits. */
  lemma {:induction false} TimePrefix(ms: nat, rnd: seq<nat>, n: nat)
    requires ms < MAX_TIME && Bytes(rnd) && n <= 10
    ensures TimeOf(Encoded(ms, rnd), n) == ms / Pow2(50 - 5 * n)
  {
    if n == 0 {
      TopDigit(ms);
    } else {
      TimePrefix(ms, rnd, n - 1);
      NextChar(ms, rnd, n);
      PrefixStep(ms, n);
    }
  }

  lemma PrefixStep(ms: nat, n: nat)
    requires 0 < n <= 10
    ensures ms / Pow2(50 - 5 * (n - 1)) * 32 + TimeDigit(ms, n - 1) == ms / Pow2(50 - 5 * n)
  {
    DigitAgain(ms, n);
    ShiftFive(ms, 50 - 5 * n);
    assert 50 - 5 * (n - 1) == 50 - 5 * n + 5;
    Recombine(ms / Pow2(50 - 5 * n));
  }

  lemma Recombine(x: nat)
    ensures x / 32 * 32 + x % 32 == x
  {
  }

  lemma Pow2Values()
    ensures Pow2(5) == 32 && Pow2(45) == 0x2000_0000_0000 && Pow2(8) == 256
  {
    assert Pow2(2) == 4 && Pow2(3) == 8 && Pow2(4) == 16 && Pow2(5) == 32;
    Pow2Sum(5, 5); Pow2Sum(10, 10); Pow2Sum(20, 20); Pow2Sum(40, 5);
    Pow2Sum(5, 3);
  }

  /** The time comes back from the first ten characters. */
  lemma TimeDecodes(ms: nat, rnd: seq<nat>)
    requires ms < MAX_TIME && Bytes(rnd)
    ensures TimeOf(Encoded(ms, rnd), 10) == ms
  {
    TimePrefix(ms, rnd, 10);
    assert Pow2(0) == 1;
  }

  // ------------------------------------------------------------ decoding the random part

  /** Bit `k` (of five, most significant first) of a character's value. */
  function BitOf(v: nat, k: nat): nat
    requires k < 5
  {
    v / Pow2(4 - k) % 2
  }

  /** Bit `pos` of the random part, from the characters. */
  function DecodedBit(s: string, pos: nat): nat
    requires |s| == 26 && pos < 80
  {
    BitOf(Place(s[10 + pos / 5], 0), pos % 5)
  }

  /** Bit `m`, from the least significant, of a number read from `n` bits. */
  lemma {:induction false} HalvesTo(rnd: seq<nat>, pos: nat, n: nat, m: nat)
    requires Bytes(rnd) && pos + n <= 80 && m < n
    ensures Five(rnd, pos, n) / Pow2(m) % 2 == BitAt(rnd, pos + n - 1 - m)
    decreases n
  {
    var w, b := Five(rnd, pos, n - 1), BitAt(rnd, pos + n - 1);
    if m == 0 {
      LastBit(w, b);
    } else {
      HalvesTo(rnd, pos, n - 1, m - 1);
      HalfStep(w, b, m - 1);
    }
  }

  lemma LastBit(w: nat, b: nat)
    requires b < 2
    ensures (w * 2 + b) / Pow2(0) % 2 == b
  {
    assert Pow2(0) == 1;
  }

  lemma HalfStep(w: nat, b: nat, m: nat)
    requires b < 2
    ensures (w * 2 + b) / Pow2(m + 1) == w / Pow2(m)
  {
    var v := w * 2 + b;
    DivDiv(v, 2, Pow2(m));
    assert v / 2 == w;
  }

  /** Every random bit comes back. */
  lemma BitDecodes(ms: nat, rnd: seq<nat>, pos: nat)
    requires Bytes(rnd) && pos < 80
    ensures DecodedBit(Encoded(ms, rnd), pos) == BitAt(rnd, pos)
  {
    var i, k := pos / 5, pos % 5;
    var s := Encoded(ms, rnd);
    var v := RandomDigit(rnd, i);
    assert s[10 + i] == ALPHABET[v];
    PlaceOf(v, 0);
    HalvesTo(rnd, 5 * i, 5, 4 - k);
    assert 5 * i + k == pos;
  }

  function BitsOf(rnd: seq<nat>): seq<nat>
    requires Bytes(rnd)
  {
    seq(80, pos requires 0 <= pos < 80 => BitAt(rnd, pos))
  }

  function DecodedBits(s: string): seq<nat>
    requires |s| == 26
  {
    seq(80, pos requires 0 <= pos < 80 => DecodedBit(s, pos))
  }

  lemma BitsDecode(ms: nat, rnd: seq<nat>)
    requires Bytes(rnd)
    ensures DecodedBits(Encoded(ms, rnd)) == BitsOf(rnd)
  {
    forall pos | 0 <= pos < 80 ensures DecodedBits(Encoded(ms, rnd))[pos] == BitsOf(rnd)[pos] {
      BitDecodes(ms, rnd, pos);
    }
  }

  /** The low `n` bits of one byte out of 80 bits. */
  function Low(bits: seq<nat>, byte: nat, n: nat): nat
    requires |bits| == 80 && byte < 10 && n <= 8
  {
    if n == 0 then 0 else bits[8 * byte + 8 - n] * Pow2(n - 1) + Low(bits, byte, n - 1)
  }

  lemma {:induction false} LowOfBits(rnd: seq<nat>, byte: nat, n: nat)
    requires Bytes(rnd) && byte < 10 && n <= 8
    ensures Low(BitsOf(rnd), byte, n) == rnd[byte] % Pow2(n)
  {
    if n > 0 {
      LowOfBits(rnd, byte, n - 1);
      BitOfByte(rnd, byte, n);
      LowStep(Low(BitsOf(rnd), byte, n - 1), BitAt(rnd, 8 * byte + 8 - n), rnd[byte], n);
    }
  }

  lemma LowStep(low: nat, bit: nat, x: nat, n: nat)
    requires n > 0 && low == x % Pow2(n - 1) && bit == x / Pow2(n - 1) % 2
    ensures bit * Pow2(n - 1) + low == x % Pow2(n)
  {
    ModStep(x, Pow2(n - 1));
  }

  lemma BitOfByte(rnd: seq<nat>, byte: nat, n: nat)
    requires Bytes(rnd) && byte < 10 && 0 < n <= 8
    ensures BitAt(rnd, 8 * byte + 8 - n) == rnd[byte] / Pow2(n - 1) % 2
  {
    var pos := 8 * byte + 8 - n;
    assert pos / 8 == byte;
    assert pos % 8 == 8 - n;
  }

  lemma ModStep(x: nat, p: nat)
    requires p > 0
    ensures x % (2 * p) == (x / p % 2) * p + x % p
  {
    var q, r := x / p, x % p;
    assert x == p * q + r;
    var h, b := q / 2, q % 2;
    assert q == 2 * h + b;
    assert p * q == p * (2 * h) + p * b by { Spread(p, 2 * h, b); }
    assert p * (2 * h) == (2 * p) * h;
    var m := b * p + r;
    assert x == (2 * p) * h + m;
    assert b == 0 || b == 1;
    assert m < 2 * p;
    Quotient(x, 2 * p, h, m);
  }

  /** Every random byte comes back. */
  lemma RandomDecodes(ms: nat, rnd: seq<nat>, byte: nat)
    requires Bytes(rnd) && byte < 10
    ensures Low(DecodedBits(Encoded(ms, rnd)), byte, 8) == rnd[byte]
  {
    BitsDecode(ms, rnd);
    LowOfBits(rnd, byte, 8);
    ByteIsLow(rnd[byte]);
  }

  lemma ByteIsLow(b: nat)
    requires b < 256
    ensures b % Pow2(8) == b
  {
    Pow2Values();
  }

  /** ONE IDENTIFIER, ONE PAIR: equal strings come from equal times and equal random parts. */
  lemma Injective(ms1: nat, rnd1: seq<nat>, ms2: nat, rnd2: seq<nat>)
    requires ms1 < MAX_TIME && ms2 < MAX_TIME && Bytes(rnd1) && Bytes(rnd2)
    requires Encoded(ms1, rnd1) == Encoded(ms2, rnd2)
    ensures ms1 == ms2 && rnd1 == rnd2
  {
    TimeDecodes(ms1, rnd1);
    TimeDecodes(ms2, rnd2);
    forall b | 0 <= b < 10 ensures rnd1[b] == rnd2[b] {
      RandomDecodes(ms1, rnd1, b);
      RandomDecodes(ms2, rnd2, b);
    }
  }

  // ------------------------------------------------------------ order

  /** `a` comes before `b` in dictionary order, at the first place where they differ. */
  ghost predicate Before(a: string, b: string) {
    exists k :: 0 <= k < |a| && k < |b| && a[..k] == b[..k] && a[k] < b[k]
  }

  /** An earlier time gives an earlier string, whatever the random parts. */
  lemma EarlierIsSmaller(ms1: nat, rnd1: seq<nat>, ms2: nat, rnd2: seq<nat>)
    requires ms1 < ms2 < MAX_TIME && Bytes(rnd1) && Bytes(rnd2)
    ensures Before(Encoded(ms1, rnd1), Encoded(ms2, rnd2))
  {
    TimeDecodes(ms1, rnd1);
    TimeDecodes(ms2, rnd2);
    FirstDifference(ms1, rnd1, ms2, rnd2, 10);
  }

  lemma {:induction false} FirstDifference(ms1: nat, rnd1: seq<nat>, ms2: nat, rnd2: seq<nat>, n: nat)
    requires ms1 < MAX_TIME && ms2 < MAX_TIME && Bytes(rnd1) && Bytes(rnd2) && n <= 10
    requires TimeOf(Encoded(ms1, rnd1), n) < TimeOf(Encoded(ms2, rnd2), n)
    ensures Before(Encoded(ms1, rnd1), Encoded(ms2, rnd2))
    decreases n
  {
    if n > 0 {
      var a, b := Encoded(ms1, rnd1), Encoded(ms2, rnd2);
      var d, e := TimeDigit(ms1, n - 1), TimeDigit(ms2, n - 1);
      NextChar(ms1, rnd1, n);
      NextChar(ms2, rnd2, n);
      if TimeOf(a, n - 1) < TimeOf(b, n - 1) {
        FirstDifference(ms1, rnd1, ms2, rnd2, n - 1);
      } else {
        SamePrefix(ms1, rnd1, ms2, rnd2, n - 1);
        AlphabetRises(d, e);
        assert a[n - 1] == ALPHABET[d] && b[n - 1] == ALPHABET[e];
      }
    }
  }

  lemma {:induction false} SamePrefix(ms1: nat, rnd1: seq<nat>, ms2: nat, rnd2: seq<nat>, n: nat)
    requires Bytes(rnd1) && Bytes(rnd2) && n <= 10
    requires TimeOf(Encoded(ms1, rnd1), n) == TimeOf(Encoded(ms2, rnd2), n)
    ensures Encoded(ms1, rnd1)[..n] == Encoded(ms2, rnd2)[..n]
    decreases n
  {
    if n > 0 {
      NextChar(ms1, rnd1, n);
      NextChar(ms2, rnd2, n);
      SameDigits(TimeOf(Encoded(ms1, rnd1), n - 1), TimeDigit(ms1, n - 1), TimeOf(Encoded(ms2, rnd2), n - 1), TimeDigit(ms2, n - 1));
      SamePrefix(ms1, rnd1, ms2, rnd2, n - 1);
      PrefixGrows(ms1, rnd1, ms2, rnd2, n - 1);
    }
  }

  lemma SameDigits(x: nat, d: nat, y: nat, e: nat)
    requires x * 32 + d == y * 32 + e && d < 32 && e < 32
    ensures x == y && d == e
  {
  }

  lemma PrefixGrows(ms1: nat, rnd1: seq<nat>, ms2: nat, rnd2: seq<nat>, n: nat)
    requires Bytes(rnd1) && Bytes(rnd2) && n < 10 && TimeDigit(ms1, n) == TimeDigit(ms2, n)
    requires Encoded(ms1, rnd1)[..n] == Encoded(ms2, rnd2)[..n]
    ensures Encoded(ms1, rnd1)[..n + 1] == Encoded(ms2, rnd2)[..n + 1]
  {
    var a, b := Encoded(ms1, rnd1), Encoded(ms2, rnd2);
    assert a[n] == b[n];
    assert a[..n + 1] == a[..n] + [a[n]] && b[..n + 1] == b[..n] + [b[n]];
  }
}

/** Trimming blanks off a string of Unicode characters. */
module Text {

  /** The Unicode White_Space characters, which trimming removes. */
  predicate IsSpace(c: char) {
    var n := c as int;
    || 0x09 <= n <= 0x0D || n == 0x20 || n == 0x85 || n == 0xA0 || n == 0x1680 || 0x2000 <= n <= 0x200A
    || n == 0x2028 || n == 0x2029 || n == 0x202F || n == 0x205F || n == 0x3000
  }

  predicate Blank(s: string) {
    forall k :: 0 <= k < |s| ==> IsSpace(s[k])
  }

  function TrimStart(s: string): string {
    if s != "" && IsSpace(s[0]) then TrimStart(s[1..]) else s
  }

  function TrimEnd(s: string): string {
    if s != "" && IsSpace(s[|s| - 1]) then TrimEnd(s[..|s| - 1]) else s
  }

  function Trim(s: string): string {
    TrimEnd(TrimStart(s))
  }

  /** Nothing is left exactly of a string of blanks. */
  lemma {:induction false} TrimEmptyIffBlank(s: string)
    ensures Trim(s) == "" <==> Blank(s)
    decreases |s|
  {
    if s != "" {
      if IsSpace(s[0]) {
        TrimEmptyIffBlank(s[1..]);
        assert Blank(s) <==> Blank(s[1..]) by { assert s == [s[0]] + s[1..]; }
      } else {
        TrimEndKeeps(s);
      }
    }
  }

  lemma {:induction false} TrimEndKeeps(s: string)
    requires s != "" && !IsSpace(s[0])
    ensures TrimEnd(s) != ""
  {
    if IsSpace(s[|s| - 1]) { TrimEndKeeps(s[..|s| - 1]); }
  }

  lemma {:induction false} StartTrimmed(s: string) returns (a: string)
    ensures s == a + TrimStart(s) && Blank(a) && (TrimStart(s) == "" || !IsSpace(TrimStart(s)[0]))
  {
    if s != "" && IsSpace(s[0]) {
      var rest := StartTrimmed(s[1..]);
      a := [s[0]] + rest;
      assert s == [s[0]] + s[1..];
    } else {
      a := "";
    }
  }

  lemma {:induction false} EndTrimmed(s: string) returns (b: string)
    ensures s == TrimEnd(s) + b && Blank(b) && (TrimEnd(s) == "" || !IsSpace(TrimEnd(s)[|TrimEnd(s)| - 1]))
  {
    if s != "" && IsSpace(s[|s| - 1]) {
      var n := |s| - 1;
      var rest := EndTrimmed(s[..n]);
      b := rest + [s[n]];
      assert s == s[..n] + [s[n]];
    } else {
      b := "";
    }
  }

  /** WHAT TRIMMING LEAVES: the string between a run of blanks at its start and one at its end, which itself
      begins and ends with no blank. */
  lemma TrimIs(s: string) returns (a: string, b: string)
    ensures s == a + Trim(s) + b && Blank(a) && Blank(b)
    ensures Trim(s) != "" ==> !IsSpace(Trim(s)[0]) && !IsSpace(Trim(s)[|Trim(s)| - 1])
  {
    a := StartTrimmed(s);
    b := EndTrimmed(TrimStart(s));
    if Trim(s) != "" { assert Trim(s)[0] == TrimStart(s)[0]; }
  }
}

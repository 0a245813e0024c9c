/** Which bytes of a stream are blanks: the UTF-8 forms of the White_Space characters, and nothing else. */
module ContentBlanks {
  import opened ContentCount
  import Text

  /** The UTF-8 form of a code point below 0x10000. */
  function Utf8(n: nat): string
    requires n < 0x10000
  {
    if n < 0x80 then [n as char]
    else if n < 0x800 then [(0xC0 + n / 0x40) as char, (0x80 + n % 0x40) as char]
    else [(0xE0 + n / 0x1000) as char, (0x80 + n / 0x40 % 0x40) as char, (0x80 + n % 0x40) as char]
  }

  /** THE BLANKS are the Unicode White_Space characters, all of whose bytes are taken. */
  lemma BlanksAre(n: nat)
    requires n < 0x10000 && !(0xD800 <= n < 0xE000)
    ensures BlankFirst(Utf8(n)) == BlankLast(Utf8(n)) == if Text.IsSpace(n as char) then |Utf8(n)| else 0
  {
    if n >= 0x800 {
      var a, b, c := n / 0x1000, n / 0x40 % 0x40, n % 0x40;
      assert n == a * 0x1000 + b * 0x40 + c;
    } else if n >= 0x80 {
      assert n == n / 0x40 * 0x40 + n % 0x40;
    }
  }
}

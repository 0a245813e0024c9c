/**
The wrapper script that carries an egg's environment into its space, and a reader that follows the
quoting rules of POSIX.1-2017, Shell Command Language, section 2.2 on the part of the language the
script uses: blanks, `;`, single quotes, double quotes around `$@`, and the escape character.
*/
module ShellWrapper {
  import opened Wrappers

  /** One character of a word, with whether it was quoted; or the positional parameters. */
  datatype Part = Ch(c: char, quoted: bool) | AllArgs

  type Word = seq<Part>

  datatype Mode = Gap | InWord | Single | Double

  /** An environment as the sorted map lists it. */
  type Env = seq<(string, string)>

  // ------------------------------------------------------------ the reader

  predicate IsAlpha(c: char) {
    'a' <= c <= 'z' || 'A' <= c <= 'Z'
  }

  predicate IsDigit(c: char) {
    '0' <= c <= '9'
  }

  /** Characters that stand for themselves outside quotes and mean nothing else here. */
  predicate IsPlain(c: char) {
    IsAlpha(c) || IsDigit(c) || c == '_' || c == '='
  }

  /** Commands of words; none when the text leaves the part of the language described above. */
  function Read(s: string, mode: Mode, word: Word, cmd: seq<Word>, done: seq<seq<Word>>): Option<seq<seq<Word>>>
    decreases |s|, if mode == Gap then 1 else 0
  {
    if s == "" then
      match mode
      case Gap => Some(done + [cmd])
      case InWord => Some(done + [cmd + [word]])
      case _ => None
    else
      match mode
      case Gap =>
        if s[0] == ' ' then Read(s[1..], Gap, [], cmd, done)
        else if s[0] == ';' then Read(s[1..], Gap, [], [], done + [cmd])
        else Read(s, InWord, [], cmd, done)
      case InWord =>
        if s[0] == ' ' then Read(s[1..], Gap, [], cmd + [word], done)
        else if s[0] == ';' then Read(s[1..], Gap, [], [], done + [cmd + [word]])
        else if s[0] == '\'' then Read(s[1..], Single, word, cmd, done)
        else if s[0] == '"' then Read(s[1..], Double, word, cmd, done)
        else if s[0] == '\\' then
          if |s| < 2 || s[1] == '\n' then None else Read(s[2..], InWord, word + [Ch(s[1], true)], cmd, done)
        else if IsPlain(s[0]) then Read(s[1..], InWord, word + [Ch(s[0], false)], cmd, done)
        else None
      case Single =>
        if s[0] == '\'' then Read(s[1..], InWord, word, cmd, done)
        else Read(s[1..], Single, word + [Ch(s[0], true)], cmd, done)
      case Double =>
        if s[0] == '"' then Read(s[1..], InWord, word, cmd, done)
        else if |s| >= 2 && s[0] == '$' && s[1] == '@' then Read(s[2..], Double, word + [AllArgs], cmd, done)
        else if s[0] == '$' || s[0] == '`' || s[0] == '\\' then None
        else Read(s[1..], Double, word + [Ch(s[0], true)], cmd, done)
  }

  function ReadScript(s: string): Option<seq<seq<Word>>> {
    Read(s, Gap, [], [], [])
  }

  // ------------------------------------------------------------ the writer

  predicate IsEnvName(s: string) {
    s != "" && (IsAlpha(s[0]) || s[0] == '_') && forall k :: 0 < k < |s| ==> IsAlpha(s[k]) || IsDigit(s[k]) || s[k] == '_'
  }

  predicate ValidEnv(env: Env) {
    forall e :: e in env ==> IsEnvName(e.0) && '\0' !in e.1
  }

  const SMALL := "abcdefghijklmnopqrstuvwxyz"
  const CAPITAL := "ABCDEFGHIJKLMNOPQRSTUVWXYZ"
  const FIGURES := "0123456789"

  /** A letter or underscore, and then letters, underscores and figures. */
  predicate NameByLetters(s: string) {
    |s| >= 1 && (s[0] in SMALL || s[0] in CAPITAL || s[0] == '_')
    && forall k :: 1 <= k < |s| ==> s[k] in SMALL || s[k] in CAPITAL || s[k] in FIGURES || s[k] == '_'
  }

  lemma LettersAre(c: char)
    ensures IsAlpha(c) <==> c in SMALL || c in CAPITAL
  {
    var n := c as int;
    if c in SMALL {
      var k :| 0 <= k < |SMALL| && SMALL[k] == c;
      LetterAt(k);
    } else if c in CAPITAL {
      var k :| 0 <= k < |CAPITAL| && CAPITAL[k] == c;
      LetterAt(k);
    } else if IsAlpha(c) {
      LetterAt(if n >= 97 then n - 97 else n - 65);
    }
  }

  lemma FiguresAre(c: char)
    ensures IsDigit(c) <==> c in FIGURES
  {
    assert forall k :: 0 <= k < 10 ==> FIGURES[k] as int == k + 48;
    if IsDigit(c) { assert FIGURES[c as int - 48] == c; }
  }

  lemma LetterAt(k: nat)
    requires k < 26
    ensures SMALL[k] as int == k + 97 && CAPITAL[k] as int == k + 65
  {
  }

  lemma NamesAgree(s: string)
    ensures IsEnvName(s) <==> NameByLetters(s)
  {
    forall k | 0 <= k < |s| ensures (IsAlpha(s[k]) <==> s[k] in SMALL || s[k] in CAPITAL) && (IsDigit(s[k]) <==> s[k] in FIGURES) {
      LettersAre(s[k]);
      FiguresAre(s[k]);
    }
  }

  method ValidateEnv(env: Env) returns (ok: bool)
    ensures ok <==> ValidEnv(env)
    ensures ok <==> forall e :: e in env ==> NameByLetters(e.0) && forall k :: 0 <= k < |e.1| ==> e.1[k] as int != 0
  {
    forall e | e in env ensures IsEnvName(e.0) <==> NameByLetters(e.0) { NamesAgree(e.0); }
    for k := 0 to |env|
      invariant forall j :: 0 <= j < k ==> IsEnvName(env[j].0) && '\0' !in env[j].1
    {
      if !IsEnvName(env[k].0) || '\0' in env[k].1 { return false; }
    }
    ok := true;
  }

  /** Inside single quotes: a quote closes them, is written escaped, and they open again. */
  function Escape(v: string): string {
    if v == "" then "" else (if v[0] == '\'' then "'\\''" else [v[0]]) + Escape(v[1..])
  }

  function SingleQuote(v: string): string {
    "'" + Escape(v) + "'"
  }

  function Item(e: (string, string)): string {
    e.0 + "=" + SingleQuote(e.1)
  }

  function Items(env: Env): string {
    if env == [] then ""
    else if |env| == 1 then Item(env[0])
    else Item(env[0]) + (" " + Items(env[1..]))
  }

  function Script(env: Env): string {
    "export " + Items(env) + "; exec \"$@\""
  }

  lemma {:induction false} ItemsSnoc(env: Env, e: (string, string))
    ensures Items(env + [e]) == (if env == [] then "" else Items(env) + " ") + Item(e)
  {
    if env == [] {
      assert env + [e] == [e];
      assert "" + Item(e) == Item(e);
    } else {
      assert (env + [e])[1..] == env[1..] + [e];
      ItemsSnoc(env[1..], e);
      if |env| > 1 { Shift(Item(env[0]), " ", Items(env[1..]), " ", Item(e)); }
      else { assert Item(env[0]) + (" " + ("" + Item(e))) == Item(env[0]) + " " + Item(e); }
    }
  }

  lemma Shift(a: string, b: string, c: string, d: string, e: string)
    ensures a + (b + (c + d + e)) == (a + (b + c)) + d + e
  {
  }

  method ExecWrapperScript(env: Env) returns (script: Option<string>)
    ensures script == if env == [] then None else Some(Script(env))
  {
    if env == [] { return None; }
    var s := "export ";
    for k := 0 to |env|
      invariant s == "export " + Items(env[..k])
    {
      assert env[..k + 1] == env[..k] + [env[k]];
      ItemsSnoc(env[..k], env[k]);
      ghost var before := Items(env[..k]);
      if k > 0 { s := s + " "; }
      Append("export ", before, if k > 0 then " " else "", env[k].0, "=", SingleQuote(env[k].1));
      s := s + env[k].0;
      s := s + "=";
      s := s + SingleQuote(env[k].1);
    }
    assert env[..|env|] == env;
    s := s + "; exec \"$@\"";
    script := Some(s);
  }

  lemma Append(a: string, b: string, c: string, d: string, e: string, f: string)
    ensures a + b + c + d + e + f == a + (b + c + (d + e + f))
    ensures c == "" ==> a + b + d + e + f == a + (b + c + (d + e + f))
  {
    var x := d + e + f;
    assert a + b + c + d + e + f == (a + b + c) + x;
    assert (a + b + c) + x == a + (b + c + x);
    if c == "" { assert a + b + c == a + b; assert a + b + d + e + f == (a + b) + x; }
  }

  // ------------------------------------------------------------ what is read back

  function Unquoted(t: string): Word {
    seq(|t|, k requires 0 <= k < |t| => Ch(t[k], false))
  }

  function Quoted(t: string): Word {
    seq(|t|, k requires 0 <= k < |t| => Ch(t[k], true))
  }

  /** The word of one variable: the name and `=` bare, every character of the value quoted. */
  function Assignment(e: (string, string)): Word {
    Unquoted(e.0 + "=") + Quoted(e.1)
  }

  function Assignments(env: Env): seq<Word> {
    if env == [] then [] else [Assignment(env[0])] + Assignments(env[1..])
  }

  lemma {:induction false} ReadPlain(t: string, rest: string, word: Word, cmd: seq<Word>, done: seq<seq<Word>>)
    requires forall k :: 0 <= k < |t| ==> IsPlain(t[k])
    ensures Read(t + rest, InWord, word, cmd, done) == Read(rest, InWord, word + Unquoted(t), cmd, done)
  {
    if t == "" {
      assert t + rest == rest;
      assert word + Unquoted(t) == word;
    } else {
      assert (t + rest)[1..] == t[1..] + rest;
      ReadPlain(t[1..], rest, word + [Ch(t[0], false)], cmd, done);
      assert word + [Ch(t[0], false)] + Unquoted(t[1..]) == word + Unquoted(t);
    }
  }

  /** Whatever a value contains, reading its literal adds exactly its characters, quoted, to the word
      and leaves the word open: no character of it ends the word or the command. */
  lemma {:induction false} ReadValue(v: string, rest: string, word: Word, cmd: seq<Word>, done: seq<seq<Word>>)
    ensures Read(Escape(v) + ("'" + rest), Single, word, cmd, done) == Read(rest, InWord, word + Quoted(v), cmd, done)
  {
    var tail := "'" + rest;
    if v == "" {
      assert Escape(v) + tail == tail;
      assert tail[1..] == rest;
      assert word + Quoted(v) == word;
    } else {
      var next := word + [Ch(v[0], true)];
      var more := Escape(v[1..]) + tail;
      ReadValue(v[1..], rest, next, cmd, done);
      assert next + Quoted(v[1..]) == word + Quoted(v);
      if v[0] == '\'' {
        ReadEscapedQuote(more, word, cmd, done);
        assert Escape(v) + tail == "'\\''" + more;
      } else {
        assert Escape(v) + tail == [v[0]] + more;
        assert ([v[0]] + more)[1..] == more;
      }
    }
  }

  lemma ReadEscapedQuote(more: string, word: Word, cmd: seq<Word>, done: seq<seq<Word>>)
    ensures Read("'\\''" + more, Single, word, cmd, done) == Read(more, Single, word + [Ch('\'', true)], cmd, done)
  {
    var s := "'\\''" + more;
    var t, u := "\\''" + more, "'" + more;
    var w := word + [Ch('\'', true)];
    assert s[1..] == t && t[2..] == u && u[1..] == more;
    assert Read(s, Single, word, cmd, done) == Read(t, InWord, word, cmd, done);
    assert Read(t, InWord, word, cmd, done) == Read(u, InWord, w, cmd, done);
    assert Read(u, InWord, w, cmd, done) == Read(more, Single, w, cmd, done);
  }

  lemma ReadItem(e: (string, string), rest: string, cmd: seq<Word>, done: seq<seq<Word>>)
    requires IsEnvName(e.0)
    ensures Read(Item(e) + rest, Gap, [], cmd, done) == Read(rest, InWord, Assignment(e), cmd, done)
  {
    var name := e.0 + "=";
    var value := "'" + (Escape(e.1) + ("'" + rest));
    assert Item(e) + rest == name + value;
    assert (name + value)[0] == e.0[0];
    ReadPlain(name, value, [], cmd, done);
    assert [] + Unquoted(name) == Unquoted(name);
    assert value[1..] == Escape(e.1) + ("'" + rest);
    ReadValue(e.1, rest, Unquoted(name), cmd, done);
  }

  lemma {:induction false} ReadItems(env: Env, rest: string, cmd: seq<Word>, done: seq<seq<Word>>)
    requires env != [] && forall e :: e in env ==> IsEnvName(e.0)
    ensures var n := |env| - 1;
      Read(Items(env) + rest, Gap, [], cmd, done) == Read(rest, InWord, Assignment(env[n]), cmd + Assignments(env[..n]), done)
    decreases |env|
  {
    var n := |env| - 1;
    if n == 0 {
      ReadItem(env[0], rest, cmd, done);
      assert cmd + Assignments(env[..0]) == cmd;
    } else {
      var more := Items(env[1..]) + rest;
      assert Items(env) + rest == Item(env[0]) + (" " + more);
      ReadItem(env[0], " " + more, cmd, done);
      assert (" " + more)[1..] == more;
      ReadItems(env[1..], rest, cmd + [Assignment(env[0])], done);
      assert env[1..][..n - 1] == env[..n][1..];
      assert cmd + [Assignment(env[0])] + Assignments(env[1..][..n - 1]) == cmd + Assignments(env[..n]);
    }
  }

  lemma {:induction false} AssignmentsSnoc(env: Env)
    requires env != []
    ensures Assignments(env[..|env| - 1]) + [Assignment(env[|env| - 1])] == Assignments(env)
    decreases |env|
  {
    if |env| > 1 {
      AssignmentsSnoc(env[1..]);
      assert env[..|env| - 1][1..] == env[1..][..|env| - 2];
    }
  }

  const EXEC: seq<Word> := [Unquoted("exec"), [AllArgs]]

  lemma ReadArgs(cmd: seq<Word>, done: seq<seq<Word>>)
    ensures Read("\"$@\"", Gap, [], cmd, done) == Some(done + [cmd + [[AllArgs]]])
  {
    var s, t := "\"$@\"", "$@\"";
    assert s[1..] == t && t[2..] == "\"" && "\""[1..] == "";
    assert Read(s, Gap, [], cmd, done) == Read(s, InWord, [], cmd, done);
    assert Read(s, InWord, [], cmd, done) == Read(t, Double, [], cmd, done);
    assert [] + [AllArgs] == [AllArgs];
    assert Read(t, Double, [], cmd, done) == Read("\"", Double, [AllArgs], cmd, done);
    assert Read("\"", Double, [AllArgs], cmd, done) == Read("", InWord, [AllArgs], cmd, done);
  }

  lemma ReadExec(done: seq<seq<Word>>)
    ensures Read("exec \"$@\"", Gap, [], [], done) == Some(done + [EXEC])
  {
    var s, t := "exec \"$@\"", " \"$@\"";
    assert s == "exec" + t && t[1..] == "\"$@\"";
    ReadPlain("exec", t, [], [], done);
    assert [] + Unquoted("exec") == Unquoted("exec");
    assert Read(s, Gap, [], [], done) == Read(s, InWord, [], [], done);
    assert Read(t, InWord, Unquoted("exec"), [], done) == Read("\"$@\"", Gap, [], [] + [Unquoted("exec")], done);
    assert [] + [Unquoted("exec")] == [Unquoted("exec")];
    ReadArgs([Unquoted("exec")], done);
    assert [Unquoted("exec")] + [[AllArgs]] == EXEC;
  }

  /** The end of the script, whatever came before. */
  lemma ReadTail(word: Word, cmd: seq<Word>)
    ensures Read("; exec \"$@\"", InWord, word, cmd, []) == Some([cmd + [word], EXEC])
  {
    var s, t := "; exec \"$@\"", " exec \"$@\"";
    var done := [cmd + [word]];
    assert s[1..] == t && t[1..] == "exec \"$@\"";
    assert [] + done == done;
    assert Read(s, InWord, word, cmd, []) == Read(t, Gap, [], [], done);
    assert Read(t, Gap, [], [], done) == Read("exec \"$@\"", Gap, [], [], done);
    ReadExec(done);
    assert done + [EXEC] == [cmd + [word], EXEC];
  }

  /** ROUND TRIP: read by the shell's rules the script is exactly two commands: `export` with one word
      per variable, in order, each the name, `=`, and the value quoted; then `exec` with the caller's
      arguments. */
  lemma ScriptReads(env: Env)
    requires env != [] && forall e :: e in env ==> IsEnvName(e.0)
    ensures ReadScript(Script(env)) == Some([[Unquoted("export")] + Assignments(env), EXEC])
  {
    var tail := "; exec \"$@\"";
    var body := Items(env) + tail;
    assert Script(env) == "export" + (" " + body);
    assert ("export" + (" " + body))[0] == 'e';
    ReadPlain("export", " " + body, [], [], []);
    assert [] + Unquoted("export") == Unquoted("export");
    assert (" " + body)[1..] == body;
    assert [] + [Unquoted("export")] == [Unquoted("export")];
    ReadItems(env, tail, [Unquoted("export")], []);
    ReadTail(Assignment(env[|env| - 1]), [Unquoted("export")] + Assignments(env[..|env| - 1]));
    AssignmentsSnoc(env);
    assert [Unquoted("export")] + Assignments(env[..|env| - 1]) + [Assignment(env[|env| - 1])]
        == [Unquoted("export")] + Assignments(env);
  }

  // ------------------------------------------------------------ what export makes of it

  /** The characters a word stands for. */
  function TextOf(w: Word): string
    requires forall p :: p in w ==> p.Ch?
  {
    seq(|w|, k requires 0 <= k < |w| => assert w[k] in w; w[k].c)
  }

  function SplitAtEquals(t: string): (string, string) {
    if t == "" then ("", "")
    else if t[0] == '=' then ("", t[1..])
    else var r := SplitAtEquals(t[1..]); ([t[0]] + r.0, r.1)
  }

  lemma {:induction false} SplitName(name: string, value: string)
    requires '=' !in name
    ensures SplitAtEquals(name + "=" + value) == (name, value)
  {
    if name == "" {
      assert name + "=" + value == "=" + value;
      assert ("=" + value)[1..] == value;
    } else {
      assert (name + "=" + value)[1..] == name[1..] + "=" + value;
      SplitName(name[1..], value);
      assert [name[0]] + name[1..] == name;
    }
  }

  /** `export` splits each word at its first `=` and so sets exactly the environment that was written. */
  lemma AssignmentSets(e: (string, string))
    requires IsEnvName(e.0)
    ensures forall p :: p in Assignment(e) ==> p.Ch?
    ensures SplitAtEquals(TextOf(Assignment(e))) == e
  {
    assert TextOf(Assignment(e)) == e.0 + "=" + e.1;
    SplitName(e.0, e.1);
  }
}

/**
Counting delivered content in a streamed response: line by line, without keep-alive comments, however
the stream is cut into chunks.  A character is one byte.
*/
module ContentCount {
  const MAX_LINE: nat := 64 * 1024

  // ------------------------------------------------------------ trimming

  predicate IsBlank(c: char) {
    c == ' ' || 9 <= c as int <= 13
  }

  /** The two- and three-byte UTF-8 forms of the other Unicode White_Space characters. */
  predicate IsBlankPair(a: char, b: char) {
    a as int == 0xC2 && (b as int == 0x85 || b as int == 0xA0)
  }

  predicate IsBlankTriple(a: char, b: char, c: char) {
    var (x, y, z) := (a as int, b as int, c as int);
    || (x == 0xE1 && y == 0x9A && z == 0x80)
    || (x == 0xE2 && y == 0x80 && (0x80 <= z <= 0x8A || z == 0xA8 || z == 0xA9 || z == 0xAF))
    || (x == 0xE2 && y == 0x81 && z == 0x9F)
    || (x == 0xE3 && y == 0x80 && z == 0x80)
  }

  /** How many bytes the blank at the front takes; none when there is no blank. */
  function BlankFirst(s: string): (n: nat)
    ensures n <= |s|
  {
    if s == "" then 0
    else if IsBlank(s[0]) then 1
    else if |s| >= 2 && IsBlankPair(s[0], s[1]) then 2
    else if |s| >= 3 && IsBlankTriple(s[0], s[1], s[2]) then 3
    else 0
  }

  function BlankLast(s: string): (n: nat)
    ensures n <= |s|
  {
    var m := |s|;
    if s == "" then 0
    else if IsBlank(s[m - 1]) then 1
    else if m >= 2 && IsBlankPair(s[m - 2], s[m - 1]) then 2
    else if m >= 3 && IsBlankTriple(s[m - 3], s[m - 2], s[m - 1]) then 3
    else 0
  }

  function TrimBlanksFirst(s: string): string {
    if BlankFirst(s) > 0 then TrimBlanksFirst(s[BlankFirst(s)..]) else s
  }

  function TrimBlanksLast(s: string): string {
    if BlankLast(s) > 0 then TrimBlanksLast(s[..|s| - BlankLast(s)]) else s
  }

  /** What a complete line counts for: its trimmed length, and nothing for a comment. */
  function Weight(line: string): nat {
    var t := TrimBlanksLast(TrimBlanksFirst(line));
    if t == "" || t[0] == ':' then 0 else |t|
  }

  lemma {:induction false} FirstTrimmed(s: string) returns (a: string)
    ensures s == a + TrimBlanksFirst(s) && BlankFirst(TrimBlanksFirst(s)) == 0 && TrimBlanksFirst(a) == ""
  {
    var n := BlankFirst(s);
    if n > 0 {
      var rest := FirstTrimmed(s[n..]);
      a := s[..n] + rest;
      BlankBefore(s, n, rest);
      Halves(s, n, rest, TrimBlanksFirst(s[n..]));
    } else {
      a := "";
    }
  }

  lemma Halves(s: string, n: nat, a: string, t: string)
    requires n <= |s| && s[n..] == a + t
    ensures s == s[..n] + a + t
  {
    assert s == s[..n] + s[n..];
  }

  lemma BlankBefore(s: string, n: nat, rest: string)
    requires n == BlankFirst(s) > 0
    ensures BlankFirst(s[..n] + rest) == n && (s[..n] + rest)[n..] == rest
  {
  }

  lemma BlankAfter(s: string, n: nat, rest: string)
    requires n == BlankLast(s) > 0
    ensures var b := rest + s[|s| - n..]; BlankLast(b) == n && b[..|b| - n] == rest
  {
  }

  lemma {:induction false} LastTrimmed(s: string) returns (b: string)
    ensures s == TrimBlanksLast(s) + b && BlankLast(TrimBlanksLast(s)) == 0 && TrimBlanksLast(b) == ""
  {
    var n := BlankLast(s);
    if n > 0 {
      var m := |s| - n;
      var rest := LastTrimmed(s[..m]);
      b := rest + s[m..];
      BlankAfter(s, n, rest);
      OtherHalves(s, m, TrimBlanksLast(s[..m]), rest);
    } else {
      b := "";
    }
  }

  lemma OtherHalves(s: string, m: nat, t: string, b: string)
    requires m <= |s| && s[..m] == t + b
    ensures s == t + (b + s[m..])
  {
    assert s == s[..m] + s[m..];
  }

  /** WHAT A LINE COUNTS FOR: it is a run of blanks, a text, and another run of blanks; the text neither ends nor, as
      long as it is not empty, begins with one.  It counts its length, unless it begins with a colon. */
  lemma WeightIs(line: string) returns (a: string, t: string, b: string)
    ensures line == a + t + b && TrimBlanksFirst(a) == "" && TrimBlanksLast(b) == "" && BlankLast(t) == 0
    ensures Weight(line) == if t == "" || t[0] as int == 0x3A then 0 else |t|
  {
    var rest := TrimBlanksFirst(line);
    a := FirstTrimmed(line);
    b := LastTrimmed(rest);
    t := TrimBlanksLast(rest);
    Grouped(a, t, b);
  }

  lemma Grouped(a: string, t: string, b: string)
    ensures a + (t + b) == a + t + b
  {
  }

  datatype Counter = Counter(buf: string, content: nat)

  // ------------------------------------------------------------ the meaning

  /** A stream cut at its newlines: the complete lines, and the unfinished tail. */
  function Split(s: string): (seq<string>, string) {
    if s == "" then ([], "")
    else
      var (done, tail) := Split(s[..|s| - 1]);
      if s[|s| - 1] == '\n' then (done + [tail], "") else (done, tail + [s[|s| - 1]])
  }

  function Joined(ls: seq<string>): string {
    if ls == [] then "" else Joined(ls[..|ls| - 1]) + ls[|ls| - 1] + [10 as char]
  }

  /** The lines and the tail make up the stream, and none has a line feed in it. */
  lemma {:induction false} SplitExact(s: string)
    ensures Joined(Split(s).0) + Split(s).1 == s
    ensures (forall l :: l in Split(s).0 ==> 10 as char !in l) && 10 as char !in Split(s).1
  {
    if s != "" {
      var n := |s| - 1;
      SplitExact(s[..n]);
      var (done, tail) := Split(s[..n]);
      assert s == s[..n] + [s[n]];
      if s[n] == '\n' {
        assert (done + [tail])[..|done|] == done;
        assert Joined(done) + tail + [10 as char] + "" == s;
      } else {
        assert Joined(done) + (tail + [s[n]]) == s;
      }
    }
  }

  function Total(ls: seq<string>): nat {
    if ls == [] then 0 else Total(ls[..|ls| - 1]) + Weight(ls[|ls| - 1])
  }

  /** What the counter should hold after the stream `s`. */
  function Meaning(s: string): Counter {
    Counter(Split(s).1, Total(Split(s).0))
  }

  ghost predicate ShortLines(s: string) {
    |Split(s).1| <= MAX_LINE && forall l :: l in Split(s).0 ==> |l| <= MAX_LINE
  }

  // ------------------------------------------------------------ the counter

  function IndexOf(s: string, c: char): (i: nat)
    ensures i <= |s| && c !in s[..i] && (i < |s| ==> s[i] == c)
  {
    if s == "" || s[0] == c then 0 else IndexOf(s[1..], c) + 1
  }

  /** A line is completed by `t`. */
  function LineDone(st: Counter, t: string): (next: Counter)
    ensures next.content >= st.content
  {
    Counter("", st.content + Weight(st.buf + t))
  }

  /** One chunk, as the loop takes it: up to each newline, and then the rest, which is counted raw and
      let go when the unfinished line has grown too long. */
  function Feed(st: Counter, b: string): Counter
    decreases |b|
  {
    if b == "" then st
    else
      var i := IndexOf(b, '\n');
      if i == |b| then
        var buf := st.buf + b;
        if |buf| > MAX_LINE then Counter("", st.content + |buf|) else Counter(buf, st.content)
      else
        Feed(LineDone(st, b[..i]), b[i + 1..])
  }

  class Guard {
    var lineBuf: string
    var content: nat

    constructor ()
      ensures lineBuf == "" && content == 0
    {
      lineBuf, content := "", 0;
    }

    method CountContent(b: string)
      modifies this
      ensures Counter(lineBuf, content) == Feed(old(Counter(lineBuf, content)), b)
    {
      var rest := b;
      ghost var goal := Feed(Counter(lineBuf, content), b);
      while rest != ""
        invariant goal == Feed(Counter(lineBuf, content), rest)
        decreases |rest|
      {
        var i := IndexOf(rest, '\n');
        if i == |rest| {
          KeepTail(rest);
          return;
        }
        ghost var before := Counter(lineBuf, content);
        FinishLine(rest[..i]);
        FeedStep(before, Counter(lineBuf, content), rest);
        rest := rest[i + 1..];
      }
    }

    /** A newline was found: the line is counted and the buffer emptied. */
    method FinishLine(t: string)
      modifies this
      ensures Counter(lineBuf, content) == LineDone(old(Counter(lineBuf, content)), t)
    {
      lineBuf := lineBuf + t;
      var weight := Weigh(lineBuf);
      content := content + weight;
      lineBuf := "";
    }

    method Weigh(line: string) returns (weight: nat)
      ensures weight == Weight(line)
    {
      var t := TrimBlanksLast(TrimBlanksFirst(line));
      weight := if t == "" || t[0] == ':' then 0 else |t|;
    }

    /** No newline: the rest is kept, or counted raw when the line has grown too long. */
    method KeepTail(rest: string)
      requires rest != "" && IndexOf(rest, '\n') == |rest|
      modifies this
      ensures Counter(lineBuf, content) == Feed(old(Counter(lineBuf, content)), rest)
    {
      lineBuf := lineBuf + rest;
      if |lineBuf| > MAX_LINE {
        content := content + |lineBuf|;
        lineBuf := "";
      }
    }
  }

  function FeedAll(st: Counter, chunks: seq<string>): Counter
    decreases |chunks|
  {
    if chunks == [] then st else FeedAll(Feed(st, chunks[0]), chunks[1..])
  }

  function Concat(chunks: seq<string>): string {
    if chunks == [] then "" else chunks[0] + Concat(chunks[1..])
  }

  // ------------------------------------------------------------ lines of a longer stream

  lemma SplitSnoc(s: string, c: char)
    ensures Split(s + [c]) == if c == '\n' then (Split(s).0 + [Split(s).1], "") else (Split(s).0, Split(s).1 + [c])
  {
    assert (s + [c])[..|s|] == s;
  }

  lemma {:induction false} MeaningRest(s: string, t: string)
    requires '\n' !in t
    ensures Split(s + t) == (Split(s).0, Split(s).1 + t)
  {
    if t == "" {
      assert s + t == s && Split(s).1 + t == Split(s).1;
    } else {
      var n := |t| - 1;
      MeaningRest(s, t[..n]);
      SplitSnoc(s + t[..n], t[n]);
      assert s + t[..n] + [t[n]] == s + t;
      assert Split(s).1 + t[..n] + [t[n]] == Split(s).1 + t;
    }
  }

  lemma MeaningLine(s: string, t: string)
    requires '\n' !in t
    ensures Meaning(s + (t + "\n")) == LineDone(Meaning(s), t)
  {
    MeaningRest(s, t);
    SplitSnoc(s + t, '\n');
    assert s + (t + "\n") == s + t + ['\n'];
    var ls := Split(s).0 + [Split(s).1 + t];
    assert ls[..|ls| - 1] == Split(s).0;
  }

  // ------------------------------------------------------------ one chunk, exactly

  /** Where the counter stands after a chunk: where the whole stream says it should, unless the
      unfinished line is too long, which is then counted raw and let go. */
  function Fed(st: Counter): Counter {
    if |st.buf| <= MAX_LINE then st else Counter("", st.content + |st.buf|)
  }

  /** A chunk leaves the counter where the whole stream says it should be if and only if the unfinished
      line is not too long at the end of the chunk. */
  lemma {:induction false} FeedExact(s: string, b: string)
    requires b != ""
    ensures Feed(Meaning(s), b) == Fed(Meaning(s + b))
    ensures Feed(Meaning(s), b) == Meaning(s + b) <==> |Meaning(s + b).buf| <= 65536
    ensures |Meaning(s + b).buf| > 65536 ==>
      Feed(Meaning(s), b) == Counter("", Meaning(s + b).content + |Meaning(s + b).buf|)
    decreases |b|
  {
    var i := IndexOf(b, '\n');
    if i == |b| {
      assert b[..i] == b;
      FeedTail(s, b);
    } else {
      var line, rest := b[..i] + "\n", b[i + 1..];
      MeaningLine(s, b[..i]);
      FeedStep(Meaning(s), Meaning(s + line), b);
      Regroup(s, b, i);
      if rest != "" { FeedExact(s + line, rest); }
    }
  }

  /** One line more counts for what it weighs, together with what was left of it before. */
  lemma LineCounts(buf: string, content: nat, t: string)
    requires '\n' !in t
    ensures Feed(Counter(buf, content), t + "\n") == Counter("", content + Weight(buf + t))
  {
    FirstNewline(t);
    var b := t + "\n";
    assert b[..|t|] == t && b[|t| + 1..] == "";
    FeedStep(Counter(buf, content), Counter("", content + Weight(buf + t)), b);
  }

  lemma FeedTail(s: string, b: string)
    requires b != "" && IndexOf(b, '\n') == |b| && '\n' !in b
    ensures Feed(Meaning(s), b) == Fed(Meaning(s + b))
  {
    MeaningRest(s, b);
    assert Meaning(s + b) == Counter(Meaning(s).buf + b, Meaning(s).content);
  }

  lemma FeedStep(st: Counter, next: Counter, b: string)
    requires IndexOf(b, '\n') < |b|
    requires next == LineDone(st, b[..IndexOf(b, '\n')])
    ensures Feed(st, b) == Feed(next, b[IndexOf(b, '\n') + 1..])
  {
  }

  lemma Regroup(s: string, b: string, i: nat)
    requires i < |b| && b[i] == '\n'
    ensures s + b == (s + (b[..i] + "\n")) + b[i + 1..]
    ensures b[i + 1..] == "" ==> s + b == s + (b[..i] + "\n")
  {
    assert b == (b[..i] + "\n") + b[i + 1..];
  }

  /** The unfinished line after a part of a stream is the start of one of the stream's lines. */
  lemma {:induction false} TailIsShort(s: string, t: string)
    requires ShortLines(s + t)
    ensures ShortLines(s)
    decreases |t|
  {
    if t == "" {
      assert s + t == s;
    } else {
      var n := |t| - 1;
      SplitSnoc(s + t[..n], t[n]);
      assert s + t[..n] + [t[n]] == s + t;
      assert ShortLines(s + t[..n]);
      TailIsShort(s, t[..n]);
    }
  }

  /** After none of the chunks is the unfinished line too long. */
  ghost predicate TailsShort(s: string, chunks: seq<string>) {
    forall k :: 0 <= k <= |chunks| ==> |Split(s + Concat(chunks[..k])).1| <= MAX_LINE
  }

  lemma ConcatTake(s: string, chunks: seq<string>, k: nat)
    requires 0 < k <= |chunks|
    ensures s + Concat(chunks[..k]) == (s + chunks[0]) + Concat(chunks[1..][..k - 1])
  {
    assert chunks[..k][1..] == chunks[1..][..k - 1];
  }

  /** Looking at all chunks is looking at none, and then at the rest after the first. */
  lemma TailsNext(s: string, chunks: seq<string>)
    ensures chunks == [] ==> (TailsShort(s, chunks) <==> |Split(s).1| <= MAX_LINE)
    ensures chunks != [] ==>
      (TailsShort(s, chunks) <==> |Split(s).1| <= MAX_LINE && TailsShort(s + chunks[0], chunks[1..]))
  {
    assert chunks[..0] == [] && s + Concat([]) == s;
    if chunks != [] {
      forall k | 0 < k <= |chunks|
        ensures |Split(s + Concat(chunks[..k])).1| == |Split((s + chunks[0]) + Concat(chunks[1..][..k - 1])).1|
      {
        ConcatTake(s, chunks, k);
      }
      if TailsShort(s + chunks[0], chunks[1..]) {
        forall k | 0 < k <= |chunks| ensures |Split(s + Concat(chunks[..k])).1| <= MAX_LINE {
          assert |Split((s + chunks[0]) + Concat(chunks[1..][..k - 1])).1| <= MAX_LINE;
        }
      }
      if TailsShort(s, chunks) {
        forall k | 0 <= k <= |chunks[1..]| ensures |Split((s + chunks[0]) + Concat(chunks[1..][..k])).1| <= MAX_LINE {
          assert |Split(s + Concat(chunks[..k + 1])).1| <= MAX_LINE;
        }
      }
    }
  }

  lemma {:induction false} TakeAll(chunks: seq<string>, k: nat)
    requires k <= |chunks|
    ensures Concat(chunks) == Concat(chunks[..k]) + Concat(chunks[k..])
  {
    if k > 0 {
      TakeAll(chunks[1..], k - 1);
      assert chunks[..k][1..] == chunks[1..][..k - 1] && chunks[1..][k - 1..] == chunks[k..];
    } else {
      assert chunks[..0] == [] && chunks[0..] == chunks;
    }
  }

  /** Short lines are never too long while unfinished. */
  lemma ShortLinesSuffice(s: string, chunks: seq<string>)
    requires ShortLines(s + Concat(chunks))
    ensures TailsShort(s, chunks)
  {
    forall k | 0 <= k <= |chunks| ensures |Split(s + Concat(chunks[..k])).1| <= MAX_LINE {
      TakeAll(chunks, k);
      TailAt(s, Concat(chunks[..k]), Concat(chunks[k..]), Concat(chunks));
    }
  }

  lemma TailAt(s: string, t: string, u: string, all: string)
    requires all == t + u && ShortLines(s + all)
    ensures |Split(s + t).1| <= MAX_LINE
  {
    assert s + all == (s + t) + u;
    TailIsShort(s + t, u);
  }

  /** CHUNKS DO NOT MATTER: as long as no chunk ends in too long an unfinished line, any way of cutting
      the stream leaves the count at the total trimmed length of its complete, non-empty, non-comment
      lines, however long, and the unfinished tail in the buffer. */
  lemma {:induction false} ChunksDoNotMatter(s: string, chunks: seq<string>)
    requires TailsShort(s, chunks)
    ensures FeedAll(Meaning(s), chunks) == Meaning(s + Concat(chunks))
    decreases |chunks|
  {
    TailsNext(s, chunks);
    if chunks == [] {
      assert s + Concat(chunks) == s;
    } else {
      var b, rest := chunks[0], Concat(chunks[1..]);
      assert s + Concat(chunks) == (s + b) + rest;
      TailsNext(s + b, chunks[1..]);
      if b == "" { assert s + b == s; } else { FeedExact(s, b); }
      ChunksDoNotMatter(s + b, chunks[1..]);
    }
  }

  /** Without overlong lines there is nothing to ask of the chunks. */
  lemma ShortLinesAnyChunks(s: string, chunks: seq<string>)
    requires ShortLines(s + Concat(chunks))
    ensures FeedAll(Meaning(s), chunks) == Meaning(s + Concat(chunks))
  {
    ShortLinesSuffice(s, chunks);
    ChunksDoNotMatter(s, chunks);
  }

  lemma {:induction false} FeedGrows(st: Counter, b: string)
    ensures Feed(st, b).content >= st.content
    decreases |b|
  {
    if b != "" && IndexOf(b, '\n') < |b| {
      var i := IndexOf(b, '\n');
      FeedGrows(LineDone(st, b[..i]), b[i + 1..]);
    }
  }

  lemma {:induction false} FeedAllGrows(st: Counter, chunks: seq<string>)
    ensures FeedAll(st, chunks).content >= st.content
    decreases |chunks|
  {
    if chunks != [] {
      FeedGrows(st, chunks[0]);
      FeedAllGrows(Feed(st, chunks[0]), chunks[1..]);
    }
  }

  /** A chunk that ends in too long an unfinished line always counts, whatever the line is. */
  lemma {:induction false} LongTailCounts(s: string, chunks: seq<string>)
    requires |Split(s).1| <= MAX_LINE && !TailsShort(s, chunks)
    ensures FeedAll(Meaning(s), chunks).content > 0
    decreases |chunks|
  {
    TailsNext(s, chunks);
    var b := chunks[0];
    if b == "" {
      assert s + b == s;
      LongTailCounts(s, chunks[1..]);
    } else {
      FeedExact(s, b);
      if |Split(s + b).1| <= MAX_LINE {
        LongTailCounts(s + b, chunks[1..]);
      } else {
        FeedAllGrows(Feed(Meaning(s), b), chunks[1..]);
      }
    }
  }

  lemma {:induction false} TotalZero(ls: seq<string>)
    requires forall l :: l in ls ==> Weight(l) == 0
    ensures Total(ls) == 0
  {
    if ls != [] { TotalZero(ls[..|ls| - 1]); }
  }

  /** EXACTLY WHEN KEEP-ALIVES COUNT FOR NOTHING: a stream of comments and blank lines, of any length,
      leaves the count at zero if and only if no chunk ends in too long an unfinished line. */
  lemma KeepAliveIff(chunks: seq<string>)
    requires forall l :: l in Split(Concat(chunks)).0 ==> Weight(l) == 0
    ensures FeedAll(Counter("", 0), chunks).content == 0 <==> TailsShort("", chunks)
  {
    var s := Concat(chunks);
    assert "" + s == s && Meaning("") == Counter("", 0);
    if TailsShort("", chunks) {
      ChunksDoNotMatter("", chunks);
      TotalZero(Split(s).0);
    } else {
      LongTailCounts("", chunks);
    }
  }

  // ------------------------------------------------------------ where it fails

  function Xs(n: nat): (s: string)
    ensures |s| == n && forall k :: 0 <= k < n ==> s[k] == 'x'
  {
    seq(n, k => 'x')
  }

  /** A comment longer than the buffer counts as content when the chunk ends before its newline, and
      counts for nothing when it does not. */
  lemma LongCommentCounts()
    ensures var comment := ":" + Xs(MAX_LINE);
      && FeedAll(Counter("", 0), [comment, "\n"]).content == MAX_LINE + 1
      && FeedAll(Counter("", 0), [comment + "\n"]).content == 0
      && Concat([comment, "\n"]) == Concat([comment + "\n"])
  {
    var comment := ":" + Xs(MAX_LINE);
    assert comment[|comment| - 1] == Xs(MAX_LINE)[MAX_LINE - 1] == 'x';
    assert '\n' !in comment;
    CutComment(comment);
    WholeComment(comment);
    var n := "\n";
    var last: seq<string> := [n];
    var whole: seq<string> := [comment + n];
    assert [comment, n][1..] == last && last[1..] == [] && whole[1..] == [];
    assert Concat([n]) == n + "" && n + "" == n && Concat([comment + n]) == comment + n + "";
  }

  lemma CutComment(comment: string)
    requires '\n' !in comment && |comment| == MAX_LINE + 1
    ensures FeedAll(Counter("", 0), [comment, "\n"]).content == MAX_LINE + 1
  {
    var n := "\n";
    var full := Counter("", MAX_LINE + 1);
    assert IndexOf(comment, '\n') == |comment|;
    assert "" + comment == comment;
    assert Feed(Counter("", 0), comment) == full;
    assert IndexOf(n, '\n') == 0 && "" + n[..0] == "" && n[1..] == "" && Weight("") == 0;
    assert Feed(full, n) == full;
    var last: seq<string> := [n];
    assert [comment, n][1..] == last && last[1..] == [];
    assert FeedAll(full, [n]) == FeedAll(full, []);
    assert FeedAll(Counter("", 0), [comment, n]) == FeedAll(full, [n]);
  }

  lemma WholeComment(comment: string)
    requires '\n' !in comment && comment != "" && comment[0] == ':' && comment[|comment| - 1] == 'x'
    ensures FeedAll(Counter("", 0), [comment + "\n"]).content == 0
  {
    var b := comment + "\n";
    FirstNewline(comment);
    var i := |comment|;
    assert b[..i] == comment && b[i + 1..] == "" && "" + comment == comment;
    assert Weight(comment) == 0;
    var st := Counter("", 0);
    assert Feed(st, b) == Feed(st, "");
    var whole: seq<string> := [b];
    assert whole[1..] == [];
    assert FeedAll(st, [b]) == FeedAll(st, []);
  }

  lemma {:induction false} FirstNewline(t: string)
    requires '\n' !in t
    ensures IndexOf(t + "\n", '\n') == |t|
  {
    if t == "" {
      assert t + "\n" == "\n";
    } else {
      assert (t + "\n")[1..] == t[1..] + "\n";
      FirstNewline(t[1..]);
    }
  }
}

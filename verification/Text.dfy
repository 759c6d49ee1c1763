/** Text as the AWS file editor sees it: trimming, ASCII case folding, and the
    split of a file into lines that keep their terminators. */
module Text {

  datatype Option<+T> = None | Some(value: T)

  // ---------------------------------------------------------------------
  // Characters and trimming
  // ---------------------------------------------------------------------

  /** The Unicode White_Space property, which `str::trim` strips. */
  predicate IsWhitespace(c: char) {
    || c == ' '
    || '\t' <= c <= '\r'
    || c == '\U{85}' || c == '\U{A0}' || c == '\U{1680}'
    || '\U{2000}' <= c <= '\U{200A}'
    || c == '\U{2028}' || c == '\U{2029}' || c == '\U{202F}' || c == '\U{205F}' || c == '\U{3000}'
  }

  predicate AllWhitespace(s: string) {
    forall i | 0 <= i < |s| :: IsWhitespace(s[i])
  }

  /** Neither end of `s` is a whitespace character. */
  predicate Trimmed(s: string) {
    s != "" ==> !IsWhitespace(s[0]) && !IsWhitespace(s[|s| - 1])
  }

  function TrimStart(s: string): (r: string)
    ensures |r| <= |s|
  {
    if s == "" || !IsWhitespace(s[0]) then s else TrimStart(s[1..])
  }

  function TrimEnd(s: string): string {
    if s == "" || !IsWhitespace(s[|s| - 1]) then s else TrimEnd(s[..|s| - 1])
  }

  function Trim(s: string): string {
    TrimEnd(TrimStart(s))
  }

  lemma {:induction false} TrimStartSplit(s: string) returns (a: string)
    ensures AllWhitespace(a) && s == a + TrimStart(s)
    ensures TrimStart(s) != "" ==> !IsWhitespace(TrimStart(s)[0])
  {
    if s == "" || !IsWhitespace(s[0]) {
      a := "";
    } else {
      var a' := TrimStartSplit(s[1..]);
      a := [s[0]] + a';
    }
  }

  lemma {:induction false} TrimEndSplit(s: string) returns (b: string)
    ensures AllWhitespace(b) && s == TrimEnd(s) + b
    ensures TrimEnd(s) != "" ==> !IsWhitespace(TrimEnd(s)[|TrimEnd(s)| - 1])
  {
    if s == "" || !IsWhitespace(s[|s| - 1]) {
      b := "";
    } else {
      var b' := TrimEndSplit(s[..|s| - 1]);
      b := b' + [s[|s| - 1]];
    }
  }

  /** What trimming removes is whitespace, and what it keeps is trimmed. */
  lemma {:induction false} TrimSplit(s: string) returns (a: string, b: string)
    ensures AllWhitespace(a) && AllWhitespace(b)
    ensures s == a + Trim(s) + b && Trimmed(Trim(s))
  {
    hide TrimStart, TrimEnd, IsWhitespace;
    a := TrimStartSplit(s);
    b := TrimEndSplit(TrimStart(s));
    var t, r := TrimStart(s), Trim(s);
    assert t == r + b;
    assert r != "" ==> r[0] == t[0];
    assert s == a + (r + b) == a + r + b;
  }

  lemma {:induction false} TrimTrimmed(s: string)
    ensures Trimmed(Trim(s))
    ensures forall c | c in Trim(s) :: c in s
  {
    var a, b := TrimSplit(s);
  }

  lemma {:induction false} TrimStartSkips(a: string, x: string)
    requires AllWhitespace(a)
    ensures TrimStart(a + x) == TrimStart(x)
  {
    if a == "" {
      assert a + x == x;
    } else {
      assert (a + x)[1..] == a[1..] + x;
      TrimStartSkips(a[1..], x);
    }
  }

  lemma {:induction false} TrimEndSkips(x: string, b: string)
    requires AllWhitespace(b)
    ensures TrimEnd(x + b) == TrimEnd(x)
  {
    if b == "" {
      assert x + b == x;
    } else {
      assert (x + b)[..|x + b| - 1] == x + b[..|b| - 1];
      TrimEndSkips(x, b[..|b| - 1]);
    }
  }

  /** Trimming is determined by its result: whatever trimmed text sits between
      two runs of whitespace is what `Trim` returns. */
  lemma {:induction false} TrimSandwich(a: string, m: string, b: string)
    requires AllWhitespace(a) && AllWhitespace(b) && Trimmed(m)
    ensures Trim(a + m + b) == m
  {
    assert a + m + b == a + (m + b);
    TrimStartSkips(a, m + b);
    if m == "" {
      assert m + b == b;
      TrimStartSkips(b, "");
      assert b + "" == b;
    } else {
      TrimEndSkips(m, b);
    }
  }

  lemma {:induction false} TrimOfTrimmed(s: string)
    requires Trimmed(s)
    ensures Trim(s) == s
  {
    TrimSandwich("", s, "");
    assert "" + s + "" == s;
  }

  /** Whitespace around `s` does not change its trim. */
  lemma {:induction false} TrimPadded(a: string, s: string, b: string)
    requires AllWhitespace(a) && AllWhitespace(b)
    ensures Trim(a + s + b) == Trim(s)
  {
    var p, q := TrimSplit(s);
    var m := Trim(s);
    assert AllWhitespace(a + p) && AllWhitespace(q + b);
    Regroup(a, p, m, q, b);
    TrimSandwich(a + p, m, q + b);
  }

  lemma {:induction false} Regroup(a: string, p: string, m: string, q: string, b: string)
    ensures a + (p + m + q) + b == (a + p) + m + (q + b)
  {
  }

  lemma {:induction false} ConcatAssoc<T>(x: seq<T>, y: seq<T>, z: seq<T>)
    ensures x + y + z == x + (y + z)
  {
  }

  // ---------------------------------------------------------------------
  // Case folding
  // ---------------------------------------------------------------------

  function LowerChar(c: char): char {
    if 'A' <= c <= 'Z' then (c as int + 32) as char else c
  }

  /** ASCII lower-casing, character by character. */
  function Lower(s: string): string {
    seq(|s|, i requires 0 <= i < |s| => LowerChar(s[i]))
  }

  predicate EqIgnoreCase(a: string, b: string) {
    Lower(a) == Lower(b)
  }

  lemma {:induction false} LowerConcat(a: string, b: string)
    ensures Lower(a + b) == Lower(a) + Lower(b)
  {
  }

  lemma {:induction false} LowerIdempotent(s: string)
    ensures Lower(Lower(s)) == Lower(s)
  {
  }

  /** The place of the first `c`, or the length. */
  function IndexOf(s: string, c: char): (n: nat)
    ensures n <= |s|
  {
    if s == "" || s[0] == c then 0 else 1 + IndexOf(s[1..], c)
  }

  // ---------------------------------------------------------------------
  // Lines with their terminators
  // ---------------------------------------------------------------------

  /** Length of the first line of `s`, its line feed included. */
  function FirstLength(s: string): (n: nat)
    ensures n <= |s| && (s != "" ==> n > 0)
    ensures forall i | 0 <= i < n - 1 :: s[i] != '\n'
    ensures n < |s| ==> n > 0 && s[n - 1] == '\n'
  {
    if s == "" then 0 else if s[0] == '\n' then 1 else 1 + FirstLength(s[1..])
  }

  /** `split_inclusive('\n')`: the lines of `s`, each with its terminator. */
  function Chunks(s: string): (cs: seq<string>)
    ensures ChunkList(cs)
    decreases |s|
  {
    if s == "" then [] else
      var n := FirstLength(s);
      [s[..n]] + Chunks(s[n..])
  }

  function Flatten(cs: seq<string>): string {
    if cs == [] then "" else cs[0] + Flatten(cs[1..])
  }

  /** A line that may be the last one of a text. */
  predicate IsChunk(c: string) {
    c != "" && forall i | 0 <= i < |c| - 1 :: c[i] != '\n'
  }

  predicate Terminated(c: string) {
    IsChunk(c) && c[|c| - 1] == '\n'
  }

  predicate AllTerminated(cs: seq<string>) {
    forall i | 0 <= i < |cs| :: Terminated(cs[i])
  }

  /** What a split of a text looks like: only the last line may lack a line feed. */
  predicate ChunkList(cs: seq<string>) {
    && (forall i | 0 <= i < |cs| :: IsChunk(cs[i]))
    && (forall i | 0 <= i < |cs| - 1 :: Terminated(cs[i]))
  }

  predicate EndsLine(s: string) {
    s == "" || s[|s| - 1] == '\n'
  }

  lemma {:induction false} FlattenConcat(a: seq<string>, b: seq<string>)
    ensures Flatten(a + b) == Flatten(a) + Flatten(b)
  {
    if a == [] {
      assert a + b == b;
    } else {
      assert (a + b)[1..] == a[1..] + b;
      FlattenConcat(a[1..], b);
    }
  }

  lemma {:induction false} FlattenChunks(s: string)
    ensures Flatten(Chunks(s)) == s
    decreases |s|
  {
    hide ChunkList, FirstLength;
    if s != "" {
      var n := FirstLength(s);
      var rest := Chunks(s[n..]);
      FlattenChunks(s[n..]);
      assert Chunks(s) == [s[..n]] + rest;
      assert ([s[..n]] + rest)[1..] == rest;
    }
  }

  lemma {:induction false} FirstLengthOfChunk(c: string, rest: string)
    requires IsChunk(c) && (Terminated(c) || rest == "")
    ensures FirstLength(c + rest) == |c|
  {
    if |c| == 1 {
      assert (c + rest)[1..] == rest;
    } else {
      assert (c + rest)[1..] == c[1..] + rest;
      FirstLengthOfChunk(c[1..], rest);
    }
  }

  lemma {:induction false} ChunksCons(c: string, rest: string)
    requires IsChunk(c) && (Terminated(c) || rest == "")
    ensures Chunks(c + rest) == [c] + Chunks(rest)
  {
    FirstLengthOfChunk(c, rest);
    assert (c + rest)[..|c|] == c && (c + rest)[|c|..] == rest;
  }

  /** Splitting inverts concatenating. */
  lemma {:induction false} ChunksOfFlatten(cs: seq<string>)
    requires ChunkList(cs)
    ensures Chunks(Flatten(cs)) == cs
  {
    if cs != [] {
      assert ChunkList(cs[1..]);
      ChunksOfFlatten(cs[1..]);
      if |cs| == 1 { assert cs[1..] == []; }
      ChunksCons(cs[0], Flatten(cs[1..]));
      assert cs == [cs[0]] + cs[1..];
    }
  }

  lemma {:induction false} FlattenLast(cs: seq<string>, last: string)
    ensures Flatten(cs + [last]) == Flatten(cs) + last
  {
    FlattenConcat(cs, [last]);
    assert Flatten([last]) == last + Flatten([]);
  }

  lemma {:induction false} ChunksTerminated(s: string)
    requires EndsLine(s)
    ensures AllTerminated(Chunks(s))
  {
    hide Chunks, Flatten;
    var cs := Chunks(s);
    FlattenChunks(s);
    if cs != [] {
      FlattenLast(cs[..|cs| - 1], cs[|cs| - 1]);
      assert cs == cs[..|cs| - 1] + [cs[|cs| - 1]];
    }
  }

  lemma {:induction false} TerminatedEndsLine(cs: seq<string>)
    requires AllTerminated(cs)
    ensures EndsLine(Flatten(cs))
  {
    if cs != [] {
      FlattenLast(cs[..|cs| - 1], cs[|cs| - 1]);
      assert cs == cs[..|cs| - 1] + [cs[|cs| - 1]];
    }
  }

  lemma {:induction false} ChunksConcat(a: string, b: string)
    requires EndsLine(a)
    ensures Chunks(a + b) == Chunks(a) + Chunks(b)
  {
    ChunksTerminated(a);
    FlattenChunks(a);
    FlattenChunks(b);
    FlattenConcat(Chunks(a), Chunks(b));
    ChunksOfFlatten(Chunks(a) + Chunks(b));
  }

  /** Two lists of lines that differ in surrounding whitespace only. */
  predicate SameTrims(cs: seq<string>, ds: seq<string>) {
    |cs| == |ds| && forall k | 0 <= k < |cs| :: Trim(cs[k]) == Trim(ds[k])
  }

  /** `s` with a line feed added when its last line lacks one. */
  function EndedLine(s: string): (r: string)
    ensures EndsLine(r)
  {
    if EndsLine(s) then s else s + "\n"
  }

  lemma {:induction false} CompleteLast(init: seq<string>, last: string)
    requires ChunkList(init + [last]) && !Terminated(last)
    ensures Chunks(Flatten(init + [last]) + "\n") == init + [last + "\n"]
    ensures Trim(last + "\n") == Trim(last)
  {
    hide Chunks, Flatten, Trim;
    FlattenLast(init, last);
    FlattenLast(init, last + "\n");
    ConcatAssoc(Flatten(init), last, "\n");
    assert forall i | 0 <= i < |init| :: (init + [last])[i] == init[i];
    assert (init + [last])[|init|] == last;
    ChunksOfFlatten(init + [last + "\n"]);
    TrimPadded("", last, "\n");
    assert "" + last + "\n" == last + "\n";
  }

  lemma {:induction false} EmptyFlatten()
    ensures Flatten([]) == ""
  {
  }

  /** Ending a text with a line feed at most completes its last line. */
  lemma {:induction false} ChunksOfEnded(s: string)
    ensures var cs, ds := Chunks(s), Chunks(EndedLine(s));
            && SameTrims(cs, ds) && AllTerminated(ds)
            && (cs != [] ==> cs[..|cs| - 1] == ds[..|cs| - 1])
            && (forall k | 0 <= k < |cs| :: IsIndented(cs[k]) == IsIndented(ds[k]))
  {
    hide Chunks, Flatten, Trim;
    EmptyFlatten();
    var cs := Chunks(s);
    FlattenChunks(s);
    ChunksTerminated(EndedLine(s));
    if !EndsLine(s) {
      var init, last := cs[..|cs| - 1], cs[|cs| - 1];
      assert cs == init + [last];
      FlattenLast(init, last);
      CompleteLast(init, last);
    }
  }

  /** A line as `str::lines` yields it: without `\n` or `\r\n`. */
  function Line(c: string): (r: string)
    ensures r <= c
  {
    if c == "" || c[|c| - 1] != '\n' then c
    else if |c| >= 2 && c[|c| - 2] == '\r' then c[..|c| - 2]
    else c[..|c| - 1]
  }

  lemma {:induction false} TrimLine(c: string)
    ensures Trim(Line(c)) == Trim(c)
  {
    var l := Line(c);
    TrimPadded("", l, c[|l|..]);
    assert c == "" + l + c[|l|..];
  }

  /** `is_indented`: a line starting with a space or a tab. */
  predicate IsIndented(line: string) {
    line != "" && (line[0] == ' ' || line[0] == '\t')
  }

  lemma {:induction false} IndentLine(c: string)
    ensures IsIndented(Line(c)) == IsIndented(c)
  {
    if c != "" && Line(c) == "" {
      assert c[0] == '\n' || c[0] == '\r';
    }
  }

  // ---------------------------------------------------------------------
  // Line feeds and carriage returns at the end of a text
  // ---------------------------------------------------------------------

  predicate IsLineBreak(c: char) {
    c == '\n' || c == '\r'
  }

  predicate AllLineBreaks(s: string) {
    forall i | 0 <= i < |s| :: IsLineBreak(s[i])
  }

  /** `trim_end_matches(['\n', '\r'])`. */
  function TrimBreaks(s: string): (r: string)
    ensures |r| <= |s| && r == s[..|r|] && AllLineBreaks(s[|r|..])
    ensures r != "" ==> !IsLineBreak(r[|r| - 1])
  {
    if s == "" || !IsLineBreak(s[|s| - 1]) then s else TrimBreaks(s[..|s| - 1])
  }
}

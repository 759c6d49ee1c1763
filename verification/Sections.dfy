/** Locating, replacing and appending `[header]` sections by offset. */
module Sections {
  import opened Text

  // ---------------------------------------------------------------------
  // The section a header names, on lines
  // ---------------------------------------------------------------------

  /** A line the locator takes for the start of a section. */
  predicate IsBracket(c: string) {
    Trim(c) != "" && Trim(c)[0] == '['
  }

  predicate Matches(c: string, header: string) {
    Lower(Trim(c)) == Lower(header)
  }

  /** Index of the first line naming `header`, or the number of lines. */
  function HeaderIndex(cs: seq<string>, header: string): (i: nat)
    ensures i <= |cs|
  {
    if cs == [] || Matches(cs[0], header) then 0 else 1 + HeaderIndex(cs[1..], header)
  }

  /** Number of lines before the first section start. */
  function BodyLength(cs: seq<string>): (n: nat)
    ensures n <= |cs|
  {
    if cs == [] || IsBracket(cs[0]) then 0 else 1 + BodyLength(cs[1..])
  }

  /** The lines of the section `header` names: its header line and its body. */
  function SectionOf(cs: seq<string>, header: string): Option<seq<string>> {
    if cs == [] then None
    else if Matches(cs[0], header) then Some(cs[..1 + BodyLength(cs[1..])])
    else SectionOf(cs[1..], header)
  }

  function SectionEnd(cs: seq<string>, i: nat): (j: nat)
    requires i < |cs|
    ensures i < j <= |cs|
  {
    i + 1 + BodyLength(cs[i + 1..])
  }

  lemma {:induction false} SectionAtIndex(cs: seq<string>, header: string)
    ensures var i := HeaderIndex(cs, header);
            SectionOf(cs, header) == if i == |cs| then None else Some(cs[i..SectionEnd(cs, i)])
  {
    if cs != [] && !Matches(cs[0], header) {
      SectionAtIndex(cs[1..], header);
      var i := HeaderIndex(cs[1..], header);
      if i < |cs| - 1 {
        assert cs[1..][i + 1..] == cs[i + 2..];
        assert cs[1..][i..SectionEnd(cs[1..], i)] == cs[i + 1..SectionEnd(cs, i + 1)];
      }
    }
  }

  /** The raw text of the section `header` names. */
  function SectionRaw(contents: string, header: string): Option<string> {
    match SectionOf(Chunks(contents), header)
    case None => None
    case Some(lines) => Some(Flatten(lines))
  }

  predicate IsHeaderName(header: string) {
    header != "" && header[0] == '['
  }

  lemma {:induction false} MatchIsBracket(c: string, header: string)
    requires IsHeaderName(header) && Matches(c, header)
    ensures IsBracket(c)
  {
    assert Lower(header)[0] == '[';
    assert Lower(Trim(c))[0] == LowerChar(Trim(c)[0]);
  }

  lemma {:induction false} HeaderIndexUnique(cs: seq<string>, header: string, i: nat)
    requires i <= |cs|
    requires forall k | 0 <= k < i :: !Matches(cs[k], header)
    requires i < |cs| ==> Matches(cs[i], header)
    ensures HeaderIndex(cs, header) == i
  {
    if i > 0 { HeaderIndexUnique(cs[1..], header, i - 1); }
  }

  lemma {:induction false} BodyLengthUnique(cs: seq<string>, n: nat)
    requires n <= |cs|
    requires forall k | 0 <= k < n :: !IsBracket(cs[k])
    requires n < |cs| ==> IsBracket(cs[n])
    ensures BodyLength(cs) == n
  {
    if n > 0 { BodyLengthUnique(cs[1..], n - 1); }
  }

  lemma {:induction false} BodyLengthSplit(a: seq<string>, b: seq<string>)
    requires b == [] || IsBracket(b[0])
    ensures BodyLength(a + b) == BodyLength(a)
  {
    if a == [] {
      assert a + b == b;
    } else {
      assert (a + b)[1..] == a[1..] + b;
      BodyLengthSplit(a[1..], b);
    }
  }

  /** Cutting a text at a section start cuts no section in two: each header is
      found in the first part if it is there, and otherwise in the second. */
  lemma {:induction false} SectionOfSplit(a: seq<string>, b: seq<string>, header: string)
    requires b == [] || IsBracket(b[0])
    ensures SectionOf(a + b, header)
         == if SectionOf(a, header).Some? then SectionOf(a, header) else SectionOf(b, header)
  {
    if a == [] {
      assert a + b == b;
    } else {
      assert (a + b)[1..] == a[1..] + b;
      if Matches(a[0], header) {
        BodyLengthSplit(a[1..], b);
        var n := 1 + BodyLength(a[1..]);
        assert (a + b)[..n] == a[..n];
      } else {
        SectionOfSplit(a[1..], b, header);
      }
    }
  }

  /** A header line followed by lines that open no section. */
  predicate OneSection(s: seq<string>, header: string) {
    && s != [] && Matches(s[0], header)
    && forall k | 1 <= k < |s| :: !IsBracket(s[k])
  }

  lemma {:induction false} NoSection(cs: seq<string>, header: string)
    requires IsHeaderName(header)
    requires forall k | 0 <= k < |cs| :: !IsBracket(cs[k])
    ensures SectionOf(cs, header) == None
  {
    if cs != [] {
      if Matches(cs[0], header) { MatchIsBracket(cs[0], header); }
      NoSection(cs[1..], header);
    }
  }

  lemma {:induction false} SectionOfOne(s: seq<string>, header: string, other: string)
    requires IsHeaderName(header) && IsHeaderName(other) && OneSection(s, header)
    ensures SectionOf(s, other) == if EqIgnoreCase(header, other) then Some(s) else None
  {
    if EqIgnoreCase(header, other) {
      BodyLengthUnique(s[1..], |s| - 1);
      assert s[..|s|] == s;
    } else {
      NoSection(s[1..], other);
    }
  }

  // ---------------------------------------------------------------------
  // The locator: offsets agree with lines
  // ---------------------------------------------------------------------

  function Lines(s: string): (ls: seq<string>)
    ensures |ls| == |Chunks(s)|
    ensures forall i | 0 <= i < |ls| :: ls[i] == Line(Chunks(s)[i])
  {
    var cs := Chunks(s);
    seq(|cs|, i requires 0 <= i < |cs| => Line(cs[i]))
  }

  /** The offset at which line `i` starts. */
  function Offset(cs: seq<string>, i: nat): nat
    requires i <= |cs|
  {
    |Flatten(cs[..i])|
  }

  lemma {:induction false} OffsetSplits(contents: string, i: nat)
    requires i <= |Chunks(contents)|
    ensures var cs := Chunks(contents);
            && Offset(cs, i) <= |contents|
            && contents[..Offset(cs, i)] == Flatten(cs[..i])
            && contents[Offset(cs, i)..] == Flatten(cs[i..])
            && Chunks(contents[Offset(cs, i)..]) == cs[i..]
  {
    hide Chunks, Flatten;
    var cs := Chunks(contents);
    FlattenChunks(contents);
    FlattenConcat(cs[..i], cs[i..]);
    assert cs[..i] + cs[i..] == cs;
    ChunksOfFlatten(cs[i..]);
  }

  function StartsWith(s: string, p: string): bool {
    p <= s
  }

  /** Moving past a line and whichever terminator follows it, as every loop of
      the locator does. */
  function SkipLine(contents: string, offset: nat, line: string): nat
    requires offset + |line| <= |contents|
  {
    var end := offset + |line|;
    if StartsWith(contents[end..], "\r\n") then end + 2
    else if StartsWith(contents[end..], "\n") then end + 1
    else end
  }

  lemma {:induction false} SkipTerminator(c: string, tail: string)
    requires IsChunk(c) && (Terminated(c) || tail == "")
    ensures SkipLine(c + tail, 0, Line(c)) == |c|
  {
    var after := (c + tail)[|Line(c)|..];
    assert after == c[|Line(c)|..] + tail;
    if Terminated(c) {
      assert c[|Line(c)|..] == "\n" || c[|Line(c)|..] == "\r\n";
      assert c[|Line(c)|..] == "\n" ==> after[0] == '\n';
    }
  }

  /** The offset lemma: the running offset is the start of the next line, for
      `\n` and for `\r\n`. */
  lemma {:induction false} SkipLineIsOffset(contents: string, i: nat)
    requires i < |Chunks(contents)|
    ensures var cs := Chunks(contents);
            && Offset(cs, i) + |Line(cs[i])| <= |contents|
            && SkipLine(contents, Offset(cs, i), Line(cs[i])) == Offset(cs, i + 1)
  {
    hide Chunks, Line, Terminated;
    var cs := Chunks(contents);
    var c, l, n := cs[i], Line(cs[i]), Offset(cs, i);
    OffsetSplits(contents, i);
    var tail := Flatten(cs[i + 1..]);
    assert contents[n..] == c + tail by {
      assert cs[i..][0] == c && cs[i..][1..] == cs[i + 1..];
    }
    assert cs[..i + 1] == cs[..i] + [c];
    FlattenLast(cs[..i], c);
    SkipTerminator(c, tail);
    assert contents[n + |l|..] == contents[n..][|l|..];
  }

  lemma {:induction false} BracketLine(c: string)
    ensures IsBracket(c) == (TrimStart(Line(c)) != "" && TrimStart(Line(c))[0] == '[')
  {
    TrimLine(c);
    var t := TrimStart(Line(c));
    var a := TrimStartSplit(Line(c));
    var b := TrimEndSplit(t);
    assert t != "" ==> TrimEnd(t) != "";
  }

  /** The search both locators start with: the offset of the first line whose
      lower-cased trim is `headerLower`. */
  method FindHeaderOffset(contents: string, headerLower: string) returns (start: Option<nat>)
    requires Lower(headerLower) == headerLower
    ensures var cs := Chunks(contents);
            var i := HeaderIndex(cs, headerLower);
            start == if i < |cs| then Some(Offset(cs, i)) else None
  {
    hide Chunks, HeaderIndex, Trim;
    ghost var cs := Chunks(contents);
    var lines := Lines(contents);
    var currentOffset := 0;
    var k := 0;
    while k < |lines|
      invariant k <= |lines|
      invariant currentOffset == Offset(cs, k)
      invariant forall m | 0 <= m < k :: !Matches(cs[m], headerLower)
    {
      TrimLine(cs[k]);
      if Lower(Trim(lines[k])) == headerLower {
        HeaderIndexUnique(cs, headerLower, k);
        return Some(currentOffset);
      }
      SkipLineIsOffset(contents, k);
      currentOffset := SkipLine(contents, currentOffset, lines[k]);
      k := k + 1;
    }
    HeaderIndexUnique(cs, headerLower, k);
    return None;
  }

  /** `find_section_start`: the offset of the first matching header line, or 0. */
  method FindSectionStart(contents: string, headerLower: string) returns (start: nat)
    requires Lower(headerLower) == headerLower
    ensures var cs := Chunks(contents);
            var i := HeaderIndex(cs, headerLower);
            start == if i < |cs| then Offset(cs, i) else 0
  {
    var found := FindHeaderOffset(contents, headerLower);
    start := if found.Some? then found.value else 0;
  }

  /** The length of the section that starts `rest`: its first line is skipped and
      the next section start ends it. */
  method SectionLength(rest: string) returns (sectionEnd: nat)
    requires rest != ""
    ensures sectionEnd == Offset(Chunks(rest), SectionEnd(Chunks(rest), 0))
  {
    hide Trim, TrimStart, IsBracket, Chunks, Flatten, Offset, BodyLength, Line, SkipLine;
    ghost var cs := Chunks(rest);
    OffsetEnds(rest);
    var lines := Lines(rest);
    sectionEnd := |rest|;
    var atHeader := false;
    var offset := 0;
    var m := 0;
    while m < |lines|
      invariant m <= |lines|
      invariant atHeader == (m > 0)
      invariant offset == Offset(cs, m)
      invariant forall n | 1 <= n < m :: !IsBracket(cs[n])
    {
      BracketLine(cs[m]);
      if !atHeader {
        atHeader := true;
      } else if TrimStart(lines[m]) != "" && TrimStart(lines[m])[0] == '[' {
        BodyLengthUnique(cs[1..], m - 1);
        return offset;
      }
      SkipLineIsOffset(rest, m);
      offset := SkipLine(rest, offset, lines[m]);
      m := m + 1;
    }
    BodyLengthUnique(cs[1..], m - 1);
  }

  lemma {:induction false} OffsetEnds(contents: string)
    ensures var cs := Chunks(contents);
            Offset(cs, 0) == 0 && Offset(cs, |cs|) == |contents| && (contents != "" ==> cs != [])
  {
    var cs := Chunks(contents);
    FlattenChunks(contents);
    assert cs[..0] == [] && cs[..|cs|] == cs;
  }

  lemma {:induction false} HeaderIndexLower(cs: seq<string>, header: string)
    ensures HeaderIndex(cs, Lower(header)) == HeaderIndex(cs, header)
  {
    LowerIdempotent(header);
    if cs != [] {
      HeaderIndexLower(cs[1..], header);
    }
  }

  /** Where the section of `header` lies in `contents`: its raw text runs from
      the offset of its header line. */
  lemma {:induction false} SectionPlace(contents: string, header: string, i: nat, j: nat)
    requires i == HeaderIndex(Chunks(contents), header) < |Chunks(contents)|
    requires j == SectionEnd(Chunks(contents), i)
    ensures var cs := Chunks(contents);
            && Offset(cs, i) <= Offset(cs, j) <= |contents|
            && SectionRaw(contents, header) == Some(contents[Offset(cs, i)..Offset(cs, j)])
  {
    hide Chunks, HeaderIndex, BodyLength, SectionOf, Flatten;
    var cs := Chunks(contents);
    SectionAtIndex(cs, header);
    OffsetSplits(contents, j);
    assert cs[..j] == cs[..i] + cs[i..j];
    FlattenConcat(cs[..i], cs[i..j]);
    assert contents[Offset(cs, i)..Offset(cs, j)] == contents[..Offset(cs, j)][Offset(cs, i)..];
  }

  lemma {:induction false} SectionInRest(contents: string, header: string, i: nat, end: nat)
    requires i == HeaderIndex(Chunks(contents), header) < |Chunks(contents)|
    requires end == Offset(Chunks(contents)[i..], SectionEnd(Chunks(contents)[i..], 0))
    ensures var n := Offset(Chunks(contents), i);
            && n + end <= |contents|
            && SectionRaw(contents, header) == Some(contents[n..][..end])
  {
    hide Chunks, Matches, IsBracket, HeaderIndex, BodyLength;
    var cs := Chunks(contents);
    var j := SectionEnd(cs, i);
    assert cs[i..][1..] == cs[i + 1..];
    assert cs[..j] == cs[..i] + cs[i..][..j - i];
    FlattenConcat(cs[..i], cs[i..][..j - i]);
    SectionPlace(contents, header, i, j);
    var n := Offset(cs, i);
    assert contents[n..][..end] == contents[n..n + end];
  }

  /** `section_raw_bytes`: the slice of `contents` from the matching header line
      to the next section start. */
  method SectionRawBytes(contents: string, header: string) returns (raw: Option<string>)
    ensures raw == SectionRaw(contents, header)
  {
    LowerIdempotent(header);
    HeaderIndexLower(Chunks(contents), header);
    var start := FindHeaderOffset(contents, Lower(header));
    ghost var cs := Chunks(contents);
    ghost var i := HeaderIndex(cs, header);
    if start.None? {
      SectionAtIndex(cs, header);
      return None;
    }
    OffsetSplits(contents, i);
    var rest := contents[start.value..];
    FlattenChunks(rest);
    var end := SectionLength(rest);
    SectionInRest(contents, header, i, end);
    return Some(rest[..end]);
  }

  // ---------------------------------------------------------------------
  // Replacing and appending a section
  // ---------------------------------------------------------------------

  /** `contents` with the section of `header` exchanged for `block`. */
  function ReplaceSection(contents: string, header: string, block: string): string {
    var cs := Chunks(contents);
    var i := HeaderIndex(cs, header);
    if i == |cs| then contents
    else Flatten(cs[..i]) + block + Flatten(cs[SectionEnd(cs, i)..])
  }

  function AppendBlock(contents: string, block: string): string {
    EndedLine(contents) + "\n" + block
  }

  function ReplaceOrAppend(contents: string, header: string, block: string): string {
    if SectionRaw(contents, header).Some? then ReplaceSection(contents, header, block)
    else AppendBlock(contents, block)
  }

  /** The offsets `find_section_start` and `section_raw_bytes` report cut out
      exactly the located section. */
  lemma {:induction false} OffsetsCutSection(contents: string, header: string, start: nat, raw: string)
    requires SectionRaw(contents, header) == Some(raw)
    requires start == Offset(Chunks(contents), HeaderIndex(Chunks(contents), header))
    ensures var cs := Chunks(contents);
            var i := HeaderIndex(cs, header);
            && i < |cs| && start + |raw| <= |contents|
            && contents[..start] == Flatten(cs[..i])
            && contents[start + |raw|..] == Flatten(cs[SectionEnd(cs, i)..])
  {
    hide Chunks, HeaderIndex, BodyLength, SectionOf, Flatten;
    var cs := Chunks(contents);
    var i := HeaderIndex(cs, header);
    SectionAtIndex(cs, header);
    var j := SectionEnd(cs, i);
    SectionPlace(contents, header, i, j);
    assert start + |raw| == Offset(cs, j);
    OffsetSplits(contents, i);
    OffsetSplits(contents, j);
  }

  /** The common tail of the three `replace_or_append_*_block` functions. */
  method ReplaceOrAppendBlock(contents: string, header: string, newBlock: string) returns (result: string)
    ensures result == ReplaceOrAppend(contents, header, newBlock)
  {
    hide Chunks, HeaderIndex, BodyLength, Flatten;
    LowerIdempotent(header);
    HeaderIndexLower(Chunks(contents), header);
    var raw := SectionRawBytes(contents, header);
    if raw.None? {
      result := contents;
      if result != "" && result[|result| - 1] != '\n' {
        result := result + "\n";
      }
      result := result + "\n";
      result := result + newBlock;
      return;
    }
    SectionAtIndex(Chunks(contents), header);
    var start := FindSectionStart(contents, Lower(header));
    OffsetsCutSection(contents, header, start, raw.value);
    var end := start + |raw.value|;
    result := contents[..start] + newBlock + contents[end..];
  }

  /** A text that is one whole section: its header line, then lines that open no
      other section, the last one ended by a line feed. */
  predicate IsBlock(block: string, header: string) {
    EndsLine(block) && OneSection(Chunks(block), header)
  }

  lemma {:induction false} SectionBounds(cs: seq<string>, header: string)
    requires IsHeaderName(header) && HeaderIndex(cs, header) < |cs|
    ensures var i := HeaderIndex(cs, header);
            var j := SectionEnd(cs, i);
            && OneSection(cs[i..j], header)
            && IsBracket(cs[i])
            && (j < |cs| ==> IsBracket(cs[j]))
            && SectionOf(cs[..i], header) == None
  {
    var i := HeaderIndex(cs, header);
    HeaderIndexAt(cs, header);
    BodyLengthAt(cs[i + 1..]);
    MatchIsBracket(cs[i], header);
    SectionAtIndex(cs[..i], header);
    HeaderIndexUnique(cs[..i], header, i);
  }

  lemma {:induction false} HeaderIndexAt(cs: seq<string>, header: string)
    ensures var i := HeaderIndex(cs, header);
            && (i < |cs| ==> Matches(cs[i], header))
            && forall k | 0 <= k < i :: !Matches(cs[k], header)
  {
    if cs != [] && !Matches(cs[0], header) {
      HeaderIndexAt(cs[1..], header);
      forall k | 0 <= k < HeaderIndex(cs, header) ensures !Matches(cs[k], header) {
        if k > 0 { assert cs[k] == cs[1..][k - 1]; }
      }
    }
  }

  lemma {:induction false} BodyLengthAt(cs: seq<string>)
    ensures var n := BodyLength(cs);
            && (n < |cs| ==> IsBracket(cs[n]))
            && forall k | 0 <= k < n :: !IsBracket(cs[k])
  {
    if cs != [] && !IsBracket(cs[0]) {
      BodyLengthAt(cs[1..]);
      forall k | 0 <= k < BodyLength(cs) ensures !IsBracket(cs[k]) {
        if k > 0 { assert cs[k] == cs[1..][k - 1]; }
      }
    }
  }

  lemma {:induction false} ChunksOfThree(a: seq<string>, block: string, b: seq<string>)
    requires AllTerminated(a) && EndsLine(block) && ChunkList(b)
    ensures Chunks(Flatten(a) + block + Flatten(b)) == a + Chunks(block) + b
  {
    var x, z := Flatten(a), Flatten(b);
    TerminatedEndsLine(a);
    ChunksOfFlatten(a);
    ChunksOfFlatten(b);
    ChunksConcat(block, z);
    ChunksConcat(x, block + z);
    ConcatAssoc(x, block, z);
    ConcatAssoc(a, Chunks(block), b);
  }

  /** The lines of a text after one of its sections is exchanged for a block. */
  lemma {:induction false} ReplaceChunks(contents: string, header: string, block: string)
    requires HeaderIndex(Chunks(contents), header) < |Chunks(contents)|
    requires EndsLine(block)
    ensures var cs := Chunks(contents);
            var i := HeaderIndex(cs, header);
            Chunks(ReplaceSection(contents, header, block))
              == cs[..i] + Chunks(block) + cs[SectionEnd(cs, i)..]
  {
    var cs := Chunks(contents);
    var i := HeaderIndex(cs, header);
    ChunksOfThree(cs[..i], block, cs[SectionEnd(cs, i)..]);
  }

  lemma {:induction false} SectionOfThree(a: seq<string>, s: seq<string>, b: seq<string>, header: string,
          other: string)
    requires IsHeaderName(header) && IsHeaderName(other) && OneSection(s, header)
    requires b == [] || IsBracket(b[0])
    ensures SectionOf(a + s + b, other)
         == if SectionOf(a, other).Some? then SectionOf(a, other)
            else if EqIgnoreCase(header, other) then Some(s)
            else SectionOf(b, other)
  {
    MatchIsBracket(s[0], header);
    assert a + s + b == a + (s + b);
    SectionOfSplit(a, s + b, other);
    SectionOfSplit(s, b, other);
    SectionOfOne(s, header, other);
  }

  lemma {:induction false} SectionOfReplaced(cs: seq<string>, header: string, block: seq<string>, other: string)
    requires IsHeaderName(header) && IsHeaderName(other) && OneSection(block, header)
    requires HeaderIndex(cs, header) < |cs|
    ensures var i := HeaderIndex(cs, header);
            SectionOf(cs[..i] + block + cs[SectionEnd(cs, i)..], other)
              == if EqIgnoreCase(header, other) then Some(block) else SectionOf(cs, other)
  {
    hide Matches, IsBracket, HeaderIndex, BodyLength, OneSection, SectionOf, IsHeaderName;
    var i := HeaderIndex(cs, header);
    var j := SectionEnd(cs, i);
    var a, m, b := cs[..i], cs[i..j], cs[j..];
    SectionBounds(cs, header);
    SectionOfThree(a, block, b, header, other);
    SectionOfThree(a, m, b, header, other);
    assert cs == a + m + b;
    if EqIgnoreCase(header, other) {
      SectionOfSame(a, header, other);
    }
  }

  /** Replacing a section changes that section alone: every other header still
      names byte for byte the text it named before, and this one names the block. */
  lemma {:induction false} ReplaceKeepsOtherSections(contents: string, header: string, block: string, other: string)
    requires IsHeaderName(header) && IsHeaderName(other) && IsBlock(block, header)
    requires SectionRaw(contents, header).Some?
    ensures var after := ReplaceSection(contents, header, block);
            SectionRaw(after, other)
              == if EqIgnoreCase(header, other) then Some(block) else SectionRaw(contents, other)
  {
    SectionAtIndex(Chunks(contents), header);
    ReplaceChunks(contents, header, block);
    SectionOfReplaced(Chunks(contents), header, Chunks(block), other);
    FlattenChunks(block);
  }

  lemma {:induction false} SectionOfSame(cs: seq<string>, header: string, other: string)
    requires EqIgnoreCase(header, other)
    ensures SectionOf(cs, header) == SectionOf(cs, other)
  {
    if cs != [] { SectionOfSame(cs[1..], header, other); }
  }

  // ---------------------------------------------------------------------
  // Appending
  // ---------------------------------------------------------------------

  lemma {:induction false} SameTrimsLocate(cs: seq<string>, ds: seq<string>, header: string)
    requires SameTrims(cs, ds)
    ensures HeaderIndex(cs, header) == HeaderIndex(ds, header)
    ensures BodyLength(cs) == BodyLength(ds)
  {
    if cs != [] {
      assert SameTrims(cs[1..], ds[1..]);
      SameTrimsLocate(cs[1..], ds[1..], header);
    }
  }

  lemma {:induction false} LocateInPrefix(cs: seq<string>, x: string, header: string)
    requires !Matches(x, header) && !IsBracket(x)
    ensures var i := HeaderIndex(cs, header);
            HeaderIndex(cs + [x], header) == if i == |cs| then |cs| + 1 else i
    ensures var n := BodyLength(cs);
            BodyLength(cs + [x]) == if n == |cs| then |cs| + 1 else n
  {
    if cs == [] {
      assert cs + [x] == [x];
    } else {
      assert (cs + [x])[1..] == cs[1..] + [x];
      LocateInPrefix(cs[1..], x, header);
    }
  }

  lemma {:induction false} PaddedChunks(contents: string)
    ensures Chunks(EndedLine(contents) + "\n") == Chunks(EndedLine(contents)) + ["\n"]
  {
    ChunksCons("\n", "");
    assert "\n" + "" == "\n";
    ChunksConcat(EndedLine(contents), "\n");
  }

  /** The header names the last section of the file. */
  predicate IsLastSection(contents: string, header: string) {
    var cs := Chunks(contents);
    var i := HeaderIndex(cs, header);
    i < |cs| && SectionEnd(cs, i) == |cs|
  }

  lemma {:induction false} BlankLine(header: string)
    requires IsHeaderName(header)
    ensures Trim("\n") == "" && !IsBracket("\n") && !Matches("\n", header)
  {
    TrimSandwich("\n", "", "");
    assert "\n" + "" + "" == "\n";
    assert |Lower(header)| > 0 == |Lower("")|;
  }

  lemma {:induction false} SameTrimsDrop(cs: seq<string>, ds: seq<string>, i: nat)
    requires SameTrims(cs, ds) && i <= |cs|
    ensures SameTrims(cs[i..], ds[i..])
  {
    hide Trim;
  }

  lemma {:induction false} LocatePadded(contents: string, other: string)
    requires IsHeaderName(other)
    ensures var cs, ds := Chunks(contents), Chunks(EndedLine(contents) + "\n");
            var i := HeaderIndex(cs, other);
            && |ds| == |cs| + 1
            && HeaderIndex(ds, other) == (if i == |cs| then |ds| else i)
            && (i < |cs| ==>
                  SectionEnd(ds, i) == if SectionEnd(cs, i) == |cs| then |ds| else SectionEnd(cs, i))
  {
    hide Chunks, EndedLine, Matches, IsBracket, HeaderIndex, BodyLength, IsHeaderName;
    var cs, es := Chunks(contents), Chunks(EndedLine(contents));
    ChunksOfEnded(contents);
    PaddedChunks(contents);
    BlankLine(other);
    SameTrimsLocate(cs, es, other);
    LocateInPrefix(es, "\n", other);
    var i := HeaderIndex(cs, other);
    if i < |cs| {
      SameTrimsDrop(cs, es, i + 1);
      SameTrimsLocate(cs[i + 1..], es[i + 1..], other);
      assert (es + ["\n"])[i + 1..] == es[i + 1..] + ["\n"];
      LocateInPrefix(es[i + 1..], "\n", other);
    }
  }

  lemma {:induction false} OffsetInside(contents: string, i: nat)
    requires i < |Chunks(contents)|
    ensures Offset(Chunks(contents), i) < |contents|
  {
    OffsetSplits(contents, i);
    var cs := Chunks(contents);
    assert cs[i..] == [cs[i]] + cs[i + 1..];
    assert Flatten(cs[i..]) != "";
  }

  lemma {:induction false} PaddedPrefix(contents: string, k: nat)
    requires k < |Chunks(contents)|
    ensures var cs, ds := Chunks(contents), Chunks(EndedLine(contents) + "\n");
            k < |ds| && ds[..k] == cs[..k] && Offset(ds, k) == Offset(cs, k)
  {
    hide Chunks, EndedLine, Flatten;
    var cs, es := Chunks(contents), Chunks(EndedLine(contents));
    ChunksOfEnded(contents);
    PaddedChunks(contents);
    assert (es + ["\n"])[..k] == es[..|cs| - 1][..k] == cs[..|cs| - 1][..k] == cs[..k];
  }

  lemma {:induction false} PlacePadded(contents: string, other: string, raw: string)
    requires IsHeaderName(other) && SectionRaw(contents, other) == Some(raw)
    ensures SectionRaw(EndedLine(contents) + "\n", other)
         == Some(if IsLastSection(contents, other) then EndedLine(raw) + "\n" else raw)
  {
    hide Chunks, EndedLine, Matches, IsBracket, HeaderIndex, BodyLength, Flatten;
    var pad := EndedLine(contents) + "\n";
    var cs, ds := Chunks(contents), Chunks(pad);
    SectionAtIndex(cs, other);
    var i := HeaderIndex(cs, other);
    var j := SectionEnd(cs, i);
    SectionPlace(contents, other, i, j);
    LocatePadded(contents, other);
    PaddedPrefix(contents, i);
    OffsetInside(contents, i);
    var n := Offset(cs, i);
    if j == |cs| {
      WholeOffset(contents);
      assert raw == contents[n..];
      SectionPlace(pad, other, i, |ds|);
      WholeOffset(pad);
      assert pad[n..|pad|] == pad[n..];
      SuffixPadded(contents, n);
    } else {
      PaddedPrefix(contents, j);
      SectionPlace(pad, other, i, j);
      SlicePadded(contents, n, Offset(cs, j));
    }
  }

  /** Padding a text adds line feeds to its last section and nothing else. */
  lemma {:induction false} SectionRawPadded(contents: string, other: string)
    requires IsHeaderName(other)
    ensures var pad := EndedLine(contents) + "\n";
            SectionRaw(pad, other)
              == match SectionRaw(contents, other)
                 case None => None
                 case Some(raw) => Some(if IsLastSection(contents, other) then EndedLine(raw) + "\n" else raw)
  {
    match SectionRaw(contents, other)
    case Some(raw) =>
      PlacePadded(contents, other, raw);
    case None =>
      LocatePadded(contents, other);
      SectionAtIndex(Chunks(contents), other);
      SectionAtIndex(Chunks(EndedLine(contents) + "\n"), other);
  }

  lemma {:induction false} WholeOffset(s: string)
    ensures Offset(Chunks(s), |Chunks(s)|) == |s|
  {
    FlattenChunks(s);
    assert Chunks(s)[..|Chunks(s)|] == Chunks(s);
  }

  lemma {:induction false} SuffixPadded(s: string, n: nat)
    requires n <= |s| && (n < |s| || s == "")
    ensures (EndedLine(s) + "\n")[n..] == EndedLine(s[n..]) + "\n"
  {
  }

  lemma {:induction false} SlicePadded(s: string, n: nat, m: nat)
    requires n <= m <= |s|
    ensures (EndedLine(s) + "\n")[n..m] == s[n..m]
  {
  }

  /** Appending a section changes no other one, except that the section that was
      last gains the line feeds put before the new one. */
  lemma {:induction false} AppendKeepsOtherSections(contents: string, header: string, block: string, other: string)
    requires IsHeaderName(header) && IsHeaderName(other) && IsBlock(block, header)
    requires SectionRaw(contents, header).None?
    ensures SectionRaw(AppendBlock(contents, block), other)
         == if EqIgnoreCase(header, other) then Some(block)
            else match SectionRaw(contents, other)
                 case None => None
                 case Some(raw) => Some(if IsLastSection(contents, other) then EndedLine(raw) + "\n" else raw)
  {
    var pad := EndedLine(contents) + "\n";
    MatchIsBracket(Chunks(block)[0], header);
    ChunksConcat(pad, block);
    SectionOfSplit(Chunks(pad), Chunks(block), other);
    SectionOfOne(Chunks(block), header, other);
    SectionRawPadded(contents, other);
    FlattenChunks(block);
    if EqIgnoreCase(header, other) {
      SectionOfSame(Chunks(contents), header, other);
    }
  }
}

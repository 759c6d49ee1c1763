/** The text of a section but for the line breaks that end it, and what edits of other
    sections do to it: nothing. */
module SectionTexts {
  import opened Text
  import opened Sections
  import opened DocEdits
  import opened MergeWriter
  import opened ServicesStable
  import opened EndpointEditor
  import opened EndpointOps
  import opened EndpointTheorems
  import opened EndpointIdempotence

  function TextIn(cs: seq<string>, header: string): Option<string> {
    match SectionOf(cs, header)
    case None => None
    case Some(section) => Some(TrimBreaks(Flatten(section)))
  }

  /** The text of the section, without the line breaks that end it. */
  function SectionText(contents: string, header: string): Option<string> {
    TextIn(Chunks(contents), header)
  }

  lemma {:induction false} TextOfRaw(contents: string, header: string)
    ensures SectionText(contents, header)
         == match SectionRaw(contents, header) case None => None case Some(raw) => Some(TrimBreaks(raw))
  {
    hide Chunks, SectionOf, Flatten, TrimBreaks;
  }

  lemma {:induction false} OneBreak(t: string, b: char)
    requires IsLineBreak(b)
    ensures TrimBreaks(t + [b]) == TrimBreaks(t)
  {
    hide TrimBreaks;
    BreaksTrimmed([b]);
    TrimBreaksConcat(t, [b]);
  }

  lemma {:induction false} TextBlank(cs: seq<string>, b: char, header: string)
    requires IsLineBreak(b) && IsHeaderName(header)
    ensures TextIn(cs + [[b]], header) == TextIn(cs, header)
    decreases |cs|
  {
    hide Trim, Lower, TrimBreaks, IsBracket, IsHeaderName, Flatten;
    TrimBreak(b);
    BlankNoMatch([b], header);
    if cs == [] {
      assert cs + [[b]] == [[b]] && [[b]][1..] == [];
    } else {
      assert (cs + [[b]])[1..] == cs[1..] + [[b]] && (cs + [[b]])[0] == cs[0];
      if Matches(cs[0], header) {
        LocateInPrefix(cs[1..], [b], header);
        var n := BodyLength(cs[1..]);
        if n == |cs[1..]| {
          assert cs[..1 + n] == cs && (cs + [[b]])[..2 + n] == cs + [[b]];
          FlattenLast(cs, [b]);
          OneBreak(Flatten(cs), b);
        } else {
          assert (cs + [[b]])[..1 + n] == cs[..1 + n];
        }
      } else {
        TextBlank(cs[1..], b, header);
      }
    }
  }

  lemma {:induction false} TextLast(init: seq<string>, last: string, b: char, header: string)
    requires IsLineBreak(b) && IsHeaderName(header)
    ensures TextIn(init + [last + [b]], header) == TextIn(init + [last], header)
    decreases |init|
  {
    hide Trim, Lower, TrimBreaks, IsBracket, IsHeaderName, Flatten;
    var cs, ds := init + [last], init + [last + [b]];
    SameTrimLast(last, b);
    if init == [] {
      assert cs == [last] && ds == [last + [b]] && cs[1..] == [] && ds[1..] == [];
      if Matches(last, header) {
        assert cs[..1] == [] + [last] && ds[..1] == [] + [last + [b]];
        LastText([], last, b);
      }
    } else {
      assert cs[1..] == init[1..] + [last] && ds[1..] == init[1..] + [last + [b]] && cs[0] == init[0] == ds[0];
      if Matches(cs[0], header) {
        forall k | 0 <= k < |cs[1..]| ensures Trim(cs[1..][k]) == Trim(ds[1..][k]) {
          if k < |cs[1..]| - 1 { assert cs[1..][k] == ds[1..][k]; }
        }
        SameTrimsLocate(cs[1..], ds[1..], header);
        var n := BodyLength(cs[1..]);
        if n == |cs[1..]| {
          assert cs[..1 + n] == cs && ds[..1 + n] == ds;
          LastText(init, last, b);
        } else {
          assert cs[..1 + n] == ds[..1 + n];
        }
      } else {
        TextLast(init[1..], last, b, header);
      }
    }
  }

  lemma {:induction false} SameTrimLast(last: string, b: char)
    requires IsLineBreak(b)
    ensures Trim(last + [b]) == Trim(last)
  {
    hide Trim;
    TrimPadded("", last, [b]);
    assert "" + last + [b] == last + [b];
  }

  lemma {:induction false} LastText(init: seq<string>, last: string, b: char)
    requires IsLineBreak(b)
    ensures TrimBreaks(Flatten(init + [last + [b]])) == TrimBreaks(Flatten(init + [last]))
  {
    hide TrimBreaks, Flatten;
    FlattenLast(init, last);
    FlattenLast(init, last + [b]);
    ConcatAssoc(Flatten(init), last, [b]);
    OneBreak(Flatten(init) + last, b);
  }

  lemma {:induction false} AddBreakText(s: string, b: char, header: string)
    requires IsLineBreak(b) && IsHeaderName(header)
    ensures SectionText(s + [b], header) == SectionText(s, header)
  {
    hide Chunks, TextIn, EndsLine;
    ChunksAddBreak(s, b);
    var cs := Chunks(s);
    if EndsLine(s) {
      TextBlank(cs, b, header);
    } else {
      var init, last := cs[..|cs| - 1], cs[|cs| - 1];
      assert cs == init + [last];
      TextLast(init, last, b, header);
    }
  }

  lemma {:induction false} TrimBreaksText(s: string, header: string)
    requires IsHeaderName(header)
    ensures SectionText(TrimBreaks(s), header) == SectionText(s, header)
  {
    hide SectionText;
    if s != "" && IsLineBreak(s[|s| - 1]) {
      TrimBreaksText(s[..|s| - 1], header);
      AddBreakText(s[..|s| - 1], s[|s| - 1], header);
      assert s == s[..|s| - 1] + [s[|s| - 1]];
    }
  }

  lemma {:induction false} EndedText(s: string, header: string)
    requires IsHeaderName(header)
    ensures SectionText(EndedLine(s), header) == SectionText(s, header)
  {
    hide SectionText;
    if !EndsLine(s) { AddBreakText(s, '\n', header); }
  }

  /** Appending a section. */
  lemma {:induction false} AppendKeepsText(contents: string, header: string, body: string, other: string)
    requires GoodHeader(header) && NoBrackets(Chunks(body)) && IsHeaderName(other) && !EqIgnoreCase(header, other)
    ensures SectionText(AppendSection(contents, header, body), other) == SectionText(contents, other)
  {
    hide Chunks, NoBrackets, TrimBreaks, Trim, AppendSection, Lower, Flatten, EndsLine, OneLine, SectionOf, EndedLine,
         IsHeaderName;
    var pad := if contents == "" then "" else EndedLine(contents) + "\n";
    var block := header + "\n" + TrimBreaks(body) + "\n";
    AppendParts(contents, header, body, pad, block);
    HeaderOneLine(header);
    SectionChunks(header, body);
    PaddedDoc(contents);
    ChunksConcat(pad, block);
    TrimmedBody(body);
    HeadedSection(header, Chunks(TrimBreaks(body) + "\n"));
    GoodIsName(header);
    SectionOfOne(Chunks(block), header, other);
    SectionOfSplit(Chunks(pad), Chunks(block), other);
    assert SectionText(pad + block, other) == SectionText(pad, other);
    if contents != "" {
      EndedText(contents, other);
      AddBreakText(EndedLine(contents), '\n', other);
    }
  }

  lemma {:induction false} GoodIsName(header: string)
    requires GoodHeader(header)
    ensures IsHeaderName(header)
  {
  }

  /** Removing a section. */
  lemma {:induction false} RemoveKeepsText(contents: string, header: string, other: string)
    requires IsHeaderName(header) && IsHeaderName(other) && !EqIgnoreCase(header, other)
    ensures SectionText(RemoveSection(contents, header), other) == SectionText(contents, other)
  {
    hide Chunks, Trim, Lower, IsBracket, HeaderIndex, BodyLength, TrimBreaks, EndsLine, OneSection, IsHeaderName,
         Flatten, SectionOf;
    var cs := Chunks(contents);
    var i := HeaderIndex(cs, header);
    if i < |cs| {
      SectionAtIndex(cs, header);
      SectionBounds(cs, header);
      var j := SectionEnd(cs, i);
      assert cs == cs[..i] + cs[i..j] + cs[j..];
      SectionOfThree(cs[..i], cs[i..j], cs[j..], header, other);
      SectionOfSplit(cs[..i], cs[j..], other);
      var before, after := Flatten(cs[..i]), Flatten(cs[j..]);
      ChunkListSlice(cs, 0, i);
      ChunkListSlice(cs, j, |cs|);
      assert cs[0..i] == cs[..i] && cs[j..|cs|] == cs[j..];
      ChunksOfFlatten(cs[..i]);
      ChunksOfFlatten(cs[j..]);
      if after != "" {
        PrefixTerminated(cs, i);
        TerminatedEndsLine(cs[..i]);
        ChunksConcat(before, after);
      } else {
        EmptyBody();
        assert cs[..i] + [] == cs[..i];
        assert SectionText(before, other) == SectionText(contents, other);
        TrimBreaksText(before, other);
        AddBreakText(TrimBreaks(before), '\n', other);
      }
    }
  }
}

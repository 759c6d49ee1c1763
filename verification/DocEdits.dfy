/** How the meaning of a file changes when its text is cut, padded or joined. */
module DocEdits {
  import opened Text
  import opened Sections
  import opened AwsParser

  // ---------------------------------------------------------------------
  // Line breaks at the end carry no meaning
  // ---------------------------------------------------------------------

  /** Two lists of lines the parser reads alike. */
  predicate SameReads(cs: seq<string>, ds: seq<string>) {
    |cs| == |ds| && forall k | 0 <= k < |cs| :: Trim(cs[k]) == Trim(ds[k]) && IsIndented(cs[k]) == IsIndented(ds[k])
  }

  lemma {:induction false} SameLine(c: string, d: string, open: Option<string>)
    requires Trim(c) == Trim(d) && IsIndented(c) == IsIndented(d)
    ensures IsHeader(c) == IsHeader(d) && IsBracket(c) == IsBracket(d)
    ensures LineKeys(c) == LineKeys(d)
    ensures NextService(c, open) == NextService(d, open)
    ensures LineEndpoints(c, open) == LineEndpoints(d, open)
  {
    hide Trim, IsIndented, KeyValue;
  }

  lemma {:induction false} SameReadsBody(cs: seq<string>, ds: seq<string>, open: Option<string>)
    requires SameReads(cs, ds)
    ensures Keys(cs) == Keys(ds)
    ensures Endpoints(cs, open) == Endpoints(ds, open)
    ensures ServiceAfter(cs, open) == ServiceAfter(ds, open)
    ensures PlainLength(cs) == PlainLength(ds)
    decreases |cs|
  {
    hide Trim, IsIndented, IsHeader, LineKeys, NextService, LineEndpoints;
    if cs != [] {
      SameLine(cs[0], ds[0], open);
      SameReadsBody(cs[1..], ds[1..], NextService(cs[0], open));
    }
  }

  lemma {:induction false} SameReadsDoc(cs: seq<string>, ds: seq<string>)
    requires SameReads(cs, ds)
    ensures Doc(cs) == Doc(ds)
    decreases |cs|
  {
    hide Trim, IsIndented, IsHeader, Keys, Endpoints, PlainLength, Doc;
    if cs == [] {
      assert ds == [];
    } else {
      var c, t, d, u := cs[0], cs[1..], ds[0], ds[1..];
      assert cs == [c] + t && ds == [d] + u;
      SameLine(c, d, None);
      if IsHeader(c) {
        var n := PlainLength(t);
        SameReadsBody(t, u, None);
        SameReadsBody(t[..n], u[..n], None);
        SameReadsDoc(t[n..], u[n..]);
        DocStep(c, t, n);
        DocStep(d, u, n);
      } else {
        SameReadsDoc(t, u);
        DocSkip(c, t);
        DocSkip(d, u);
      }
    }
  }

  lemma {:induction false} BlankReads(c: string, open: Option<string>)
    requires Trim(c) == ""
    ensures !IsHeader(c) && LineKeys(c) == map[] && NextService(c, open) == open && LineEndpoints(c, open) == []
  {
  }

  lemma {:induction false} BlankLast(cs: seq<string>, c: string, open: Option<string>)
    requires Trim(c) == ""
    ensures Keys(cs + [c]) == Keys(cs)
    ensures Endpoints(cs + [c], open) == Endpoints(cs, open)
  {
    hide Trim, LineKeys, NextService, LineEndpoints;
    KeysConcat(cs, [c]);
    EndpointsConcat(cs, [c], open);
    BlankReads(c, ServiceAfter(cs, open));
    assert [c][1..] == [];
    assert Keys([c]) == LineKeys(c) + Keys([]);
    assert Endpoints([c], ServiceAfter(cs, open)) == LineEndpoints(c, ServiceAfter(cs, open)) + Endpoints([], ServiceAfter(cs, open));
  }

  lemma {:induction false} BlankLastPlain(cs: seq<string>, c: string)
    requires !IsHeader(c)
    ensures PlainLength(cs + [c]) == if PlainLength(cs) == |cs| then |cs| + 1 else PlainLength(cs)
  {
    hide IsHeader;
    if cs == [] {
      assert cs + [c] == [c];
      assert [c][1..] == [];
    } else {
      assert (cs + [c])[1..] == cs[1..] + [c];
      BlankLastPlain(cs[1..], c);
    }
  }

  lemma {:induction false} BlankLastDoc(cs: seq<string>, c: string)
    requires Trim(c) == ""
    ensures Doc(cs + [c]) == Doc(cs)
    decreases |cs|, 0
  {
    hide Trim, IsHeader, Keys, Endpoints, PlainLength, Doc;
    BlankReads(c, None);
    if cs == [] {
      assert cs + [c] == [c] + [];
      DocSkip(c, []);
    } else {
      var h, t := cs[0], cs[1..];
      assert cs == [h] + t && cs + [c] == [h] + (t + [c]);
      if IsHeader(h) {
        BlankLastStep(h, t, c);
      } else {
        DocSkip(h, t);
        DocSkip(h, t + [c]);
        BlankLastDoc(t, c);
      }
    }
  }

  lemma {:induction false} BlankLastStep(h: string, t: seq<string>, c: string)
    requires Trim(c) == "" && IsHeader(h)
    ensures Doc([h] + (t + [c])) == Doc([h] + t)
    decreases |t|, 1
  {
    hide Trim, IsHeader, Keys, Endpoints, PlainLength, Doc;
    var n := PlainLength(t);
    BlankReads(c, None);
    BlankLastPlain(t, c);
    DocStep(h, t, n);
    if n == |t| {
      DocStep(h, t + [c], n + 1);
      assert (t + [c])[..n + 1] == t + [c] && (t + [c])[n + 1..] == [];
      assert t[..n] == t && t[n..] == [];
      BlankLast(t, c, None);
    } else {
      DocStep(h, t + [c], n);
      assert (t + [c])[..n] == t[..n] && (t + [c])[n..] == t[n..] + [c];
      BlankLastDoc(t[n..], c);
    }
  }

  lemma {:induction false} SameReadsLast(init: seq<string>, last: string, b: char)
    requires last != "" && IsLineBreak(b)
    ensures SameReads(init + [last + [b]], init + [last])
  {
    hide Trim;
    TrimPadded("", last, [b]);
    assert "" + last + [b] == last + [b];
    assert IsIndented(last + [b]) == IsIndented(last);
  }

  /** The lines of a text with one more line break. */
  lemma {:induction false} ChunksAddBreak(s: string, b: char)
    requires IsLineBreak(b)
    ensures EndsLine(s) ==> Chunks(s + [b]) == Chunks(s) + [[b]]
    ensures !EndsLine(s) ==>
              var cs := Chunks(s);
              && cs != []
              && Chunks(s + [b]) == cs[..|cs| - 1] + [cs[|cs| - 1] + [b]]
  {
    hide Chunks;
    if EndsLine(s) {
      ChunksConcat(s, [b]);
      ChunksCons([b], "");
      assert [b] + "" == [b];
      assert Chunks("") == [] by { ChunksOfFlatten([]); assert Flatten([]) == ""; }
    } else {
      var cs := Chunks(s);
      FlattenChunks(s);
      assert cs != [] by { assert Flatten([]) == ""; }
      var init, last := cs[..|cs| - 1], cs[|cs| - 1];
      assert cs == init + [last];
      FlattenLast(init, last);
      FlattenLast(init, last + [b]);
      ConcatAssoc(Flatten(init), last, [b]);
      assert last[|last| - 1] == s[|s| - 1];
      LongerLast(init, last, b);
      ChunksOfFlatten(init + [last + [b]]);
    }
  }

  lemma {:induction false} LongerLast(init: seq<string>, last: string, b: char)
    requires last != "" && ChunkList(init + [last]) && last[|last| - 1] != '\n'
    ensures ChunkList(init + [last + [b]])
  {
    var cs := init + [last];
    assert forall i | 0 <= i < |init| :: cs[i] == init[i];
    assert cs[|init|] == last;
  }

  lemma {:induction false} AddBreak(s: string, b: char)
    requires IsLineBreak(b)
    ensures Doc(Chunks(s + [b])) == Doc(Chunks(s))
    ensures Endpoints(Chunks(s + [b]), None) == Endpoints(Chunks(s), None)
  {
    hide Chunks, Doc, Keys, Endpoints, EndsLine, SameReads;
    ChunksAddBreak(s, b);
    var cs := Chunks(s);
    if EndsLine(s) {
      TrimBreak(b);
      BlankLastDoc(cs, [b]);
      BlankLast(cs, [b], None);
    } else {
      var init, last := cs[..|cs| - 1], cs[|cs| - 1];
      assert cs == init + [last];
      SameReadsLast(init, last, b);
      SameReadsDoc(init + [last + [b]], cs);
      SameReadsBody(init + [last + [b]], cs, None);
    }
  }

  lemma {:induction false} TrimBreak(b: char)
    requires IsLineBreak(b)
    ensures Trim([b]) == ""
  {
    TrimSandwich([b], "", "");
    assert [b] + "" + "" == [b];
  }

  /** Removing the line breaks at the end of a text does not change its meaning. */
  lemma {:induction false} TrimBreaksMeaning(s: string)
    ensures Doc(Chunks(TrimBreaks(s))) == Doc(Chunks(s))
    ensures Endpoints(Chunks(TrimBreaks(s)), None) == Endpoints(Chunks(s), None)
  {
    hide Chunks, Doc, Endpoints;
    if s != "" && IsLineBreak(s[|s| - 1]) {
      TrimBreaksMeaning(s[..|s| - 1]);
      AddBreak(s[..|s| - 1], s[|s| - 1]);
      assert s == s[..|s| - 1] + [s[|s| - 1]];
    }
  }

  lemma {:induction false} EndedMeaning(s: string)
    ensures Doc(Chunks(EndedLine(s))) == Doc(Chunks(s))
    ensures Endpoints(Chunks(EndedLine(s)), None) == Endpoints(Chunks(s), None)
  {
    hide Chunks, Doc, Endpoints;
    if !EndsLine(s) { AddBreak(s, '\n'); }
  }

  // ---------------------------------------------------------------------
  // The located section in the meaning of the file
  // ---------------------------------------------------------------------

  /** Every line that starts like a header is one, so that the locator and the
      parser cut the file at the same lines. */
  predicate ClosedHeaders(cs: seq<string>) {
    forall k | 0 <= k < |cs| :: IsBracket(cs[k]) ==> IsHeader(cs[k])
  }

  lemma {:induction false} HeaderIsBracket(c: string)
    requires IsHeader(c)
    ensures IsBracket(c)
  {
    hide Trim;
  }

  /** A section replaced in a file is replaced in its meaning: the lines before
      and after the located section mean what they meant. */
  lemma {:induction false} DocAroundSection(cs: seq<string>, header: string, i: nat, j: nat)
    requires IsHeaderName(header) && ClosedHeaders(cs)
    requires i == HeaderIndex(cs, header) < |cs| && j == SectionEnd(cs, i)
    ensures Doc(cs) == Doc(cs[..i]) + [SectionFrom(cs[i], cs[i + 1..j])] + Doc(cs[j..])
    ensures IsHeader(cs[i]) && AllPlain(cs[i + 1..j]) && (j < |cs| ==> IsHeader(cs[j]))
  {
    hide Trim, Lower, IsHeader, IsBracket, Doc, SectionFrom, HeaderIndex, BodyLength;
    SectionBounds(cs, header);
    var s := cs[i..j];
    var body := cs[i + 1..j];
    forall k | 0 <= k < |body| ensures !IsHeader(body[k]) {
      assert body[k] == s[k + 1];
      if IsHeader(s[k + 1]) { HeaderIsBracket(s[k + 1]); }
    }
    assert cs == (cs[..i] + s) + cs[j..];
    DocConcat(cs[..i] + s, cs[j..]);
    DocConcat(cs[..i], s);
    assert s == [cs[i]] + cs[i + 1..j];
    DocOne(cs[i], cs[i + 1..j]);
  }
}

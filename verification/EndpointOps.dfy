/** What each text operation of the endpoint editor does to the meaning of the
    file. */
module EndpointOps {
  import opened Text
  import opened Sections
  import opened AwsParser
  import opened DocEdits
  import opened MergeWriter
  import opened ProfileWriter
  import opened ProfileKeys
  import opened ServicesEditor
  import opened ServicesRemoval
  import opened EndpointEditor

  // ---------------------------------------------------------------------
  // Lines that open no section
  // ---------------------------------------------------------------------

  predicate NoBrackets(cs: seq<string>) {
    forall k | 0 <= k < |cs| :: !IsBracket(cs[k])
  }

  lemma {:induction false} NoBracketsPlain(cs: seq<string>)
    requires NoBrackets(cs)
    ensures AllPlain(cs) && ClosedHeaders(cs)
  {
    hide IsBracket, IsHeader;
    forall k | 0 <= k < |cs| ensures !IsHeader(cs[k]) {
      if IsHeader(cs[k]) { HeaderIsBracket(cs[k]); }
    }
  }

  lemma {:induction false} SameReadsBrackets(cs: seq<string>, ds: seq<string>)
    requires SameReads(cs, ds)
    ensures NoBrackets(cs) == NoBrackets(ds) && ClosedHeaders(cs) == ClosedHeaders(ds)
  {
    hide IsBracket, IsHeader, Trim, IsIndented;
    forall k | 0 <= k < |cs| ensures IsBracket(cs[k]) == IsBracket(ds[k]) && IsHeader(cs[k]) == IsHeader(ds[k]) {
      SameLine(cs[k], ds[k], None);
    }
  }

  lemma {:induction false} BlankBrackets(cs: seq<string>, c: string)
    requires Trim(c) == ""
    ensures NoBrackets(cs + [c]) == NoBrackets(cs) && ClosedHeaders(cs + [c]) == ClosedHeaders(cs)
  {
    hide Trim, IsHeader;
    assert !IsBracket(c);
    var ds := cs + [c];
    assert forall k | 0 <= k < |cs| :: ds[k] == cs[k];
  }

  /** Line breaks at the end of a text open no section and tidy nothing up. */
  lemma {:induction false} AddBreakShape(s: string, b: char)
    requires IsLineBreak(b)
    ensures NoBrackets(Chunks(s + [b])) == NoBrackets(Chunks(s))
    ensures ClosedHeaders(Chunks(s + [b])) == ClosedHeaders(Chunks(s))
  {
    hide Chunks, Trim, EndsLine, SameReads, NoBrackets, ClosedHeaders;
    ChunksAddBreak(s, b);
    var cs := Chunks(s);
    if EndsLine(s) {
      TrimBreak(b);
      BlankBrackets(cs, [b]);
    } else {
      var init, last := cs[..|cs| - 1], cs[|cs| - 1];
      assert cs == init + [last];
      SameReadsLast(init, last, b);
      SameReadsBrackets(init + [last + [b]], cs);
    }
  }

  lemma {:induction false} TrimBreaksShape(s: string)
    ensures NoBrackets(Chunks(TrimBreaks(s))) == NoBrackets(Chunks(s))
    ensures ClosedHeaders(Chunks(TrimBreaks(s))) == ClosedHeaders(Chunks(s))
  {
    hide Chunks, NoBrackets, ClosedHeaders;
    if s != "" && IsLineBreak(s[|s| - 1]) {
      TrimBreaksShape(s[..|s| - 1]);
      AddBreakShape(s[..|s| - 1], s[|s| - 1]);
      assert s == s[..|s| - 1] + [s[|s| - 1]];
    }
  }

  lemma {:induction false} EndedShape(s: string)
    ensures NoBrackets(Chunks(EndedLine(s))) == NoBrackets(Chunks(s))
    ensures ClosedHeaders(Chunks(EndedLine(s))) == ClosedHeaders(Chunks(s))
  {
    hide Chunks, NoBrackets, ClosedHeaders;
    if !EndsLine(s) { AddBreakShape(s, '\n'); }
  }

  // ---------------------------------------------------------------------
  // The edited body
  // ---------------------------------------------------------------------

  predicate BodyLine(l: string) {
    Terminated(l) && !IsBracket(l)
  }

  predicate AllBodyLines(ls: seq<string>) {
    forall k | 0 <= k < |ls| :: BodyLine(ls[k])
  }

  lemma {:induction false} RewriteBodyLine(l: string, url: string)
    requires BodyLine(l) && InRun(l) && '\n' !in url
    ensures BodyLine(RewriteLine(l, url))
  {
    RewriteReads(l, url);
    var n := |l| - |TrimStart(l)|;
    IndentOneLine(l);
    var r := RewriteLine(l, url);
    var t := EndpointText(url);
    assert '\n' !in l[..n];
    assert '\n' !in t;
  }

  lemma {:induction false} IndentOneLine(l: string)
    requires Terminated(l) && Trim(l) != ""
    ensures '\n' !in l[..|l| - |TrimStart(l)|]
  {
    var a := TrimStartSplit(l);
    var n := |l| - |TrimStart(l)|;
    assert l[..n] == a;
    assert TrimStart(l) != "" by { assert TrimEnd("") == ""; }
  }

  lemma {:induction false} NewBodyLines(service: string, url: string)
    requires ServiceName(service) && '\n' !in url
    ensures AllBodyLines(NewService(service, url)) && BodyLine(NewEndpointLine(url))
  {
    hide Trim, Lower;
    NewOpenerReads(service);
    NewLineReads(url);
    assert Terminated(service + " =\n");
    assert Terminated(NewEndpointLine(url));
  }

  lemma {:induction false} SetRunBody(run: seq<string>, url: string)
    requires AllBodyLines(run) && AllInRun(run) && '\n' !in url
    ensures AllBodyLines(SetRun(run, url))
  {
    hide BodyLine, InRun, IsEndpointLine, RewriteLine, NewEndpointLine;
    if run == [] {
      NewBodyLine(url);
    } else if IsEndpointLine(run[0]) {
      RewriteBodyLine(run[0], url);
    } else {
      SetRunBody(run[1..], url);
    }
  }

  lemma {:induction false} NewBodyLine(url: string)
    requires '\n' !in url
    ensures BodyLine(NewEndpointLine(url))
  {
    NamesAreServices();
    NewBodyLines("ssm", url);
  }

  lemma {:induction false} NonEndpointsBody(run: seq<string>)
    requires AllBodyLines(run)
    ensures AllBodyLines(NonEndpoints(run))
  {
    hide BodyLine, IsEndpointLine;
    if run != [] { NonEndpointsBody(run[1..]); }
  }

  lemma {:induction false} EditServiceBody(lines: seq<string>, service: string, url: Option<string>)
    requires ServiceName(service) && AllBodyLines(lines) && (url.Some? ==> '\n' !in url.value)
    ensures AllBodyLines(EditService(lines, service, url))
  {
    hide BodyLine, InRun, ServiceName, OpenerIndex, RunLength, SetRun, NonEndpoints, NewService, ContentLength,
         AllBodyLines;
    var i := OpenerIndex(lines, service);
    if i == |lines| {
      if url.Some? {
        NewBodyLines(service, url.value);
        var n := ContentLength(lines);
        BodyParts(lines, n, n);
        BodyJoin(lines[..n], NewService(service, url.value), lines[n..]);
      }
    } else {
      RunAt(lines[i + 1..]);
      var j := i + 1 + RunLength(lines[i + 1..]);
      var run := lines[i + 1..j];
      assert run == lines[i + 1..][..j - i - 1];
      BodyParts(lines, i, j);
      BodyParts(lines, i + 1, j);
      if url.Some? {
        SetRunBody(run, url.value);
        BodyJoin(lines[..i + 1], SetRun(run, url.value), lines[j..]);
      } else {
        NonEndpointsBody(run);
        var kept := NonEndpoints(run);
        BodyJoin([], [lines[i]], kept);
        assert [] + [lines[i]] + kept == [lines[i]] + kept;
        BodyJoin(lines[..i], if kept == [] then [] else [lines[i]] + kept, lines[j..]);
      }
    }
  }

  lemma {:induction false} BodyParts(lines: seq<string>, i: nat, j: nat)
    requires AllBodyLines(lines) && i <= j <= |lines|
    ensures AllBodyLines(lines[..i]) && AllBodyLines(lines[i..j]) && AllBodyLines(lines[j..]) && AllBodyLines([])
    ensures i < |lines| ==> AllBodyLines([lines[i]])
  {
    hide BodyLine;
  }

  lemma {:induction false} BodyJoin(a: seq<string>, b: seq<string>, c: seq<string>)
    requires AllBodyLines(a) && AllBodyLines(b) && AllBodyLines(c)
    ensures AllBodyLines(a + b + c)
  {
    hide BodyLine;
  }

  lemma {:induction false} EditLinesBody(lines: seq<string>, url: Option<string>)
    requires AllBodyLines(lines) && (url.Some? ==> '\n' !in url.value)
    ensures AllBodyLines(EditLines(lines, url))
  {
    hide AllBodyLines, EditService, ServiceName;
    NamesAreServices();
    EditServiceBody(lines, "secrets_manager", url);
    var l1 := EditService(lines, "secrets_manager", url);
    EditServiceBody(l1, "secrets-manager", url);
    EditServiceBody(EditService(l1, "secrets-manager", url), "ssm", url);
  }

  lemma {:induction false} BodyLinesForm(ls: seq<string>)
    ensures AllBodyLines(ls) <==> AllTerminated(ls) && NoBrackets(ls)
  {
    hide Terminated, IsBracket;
  }

  /** What the parser reports for an endpoint given as `url`. */
  function Reported(url: Option<string>): Option<string> {
    match url case None => None case Some(u) => Some(Trim(u))
  }

  /** What the parser reports of a body after the edit: the endpoint that was set, or
      what a removal leaves. */
  function ReportedAfter(body: string, url: Option<string>): Option<string> {
    match url case Some(u) => Some(Trim(u)) case None => UrlOf(Left(Chunks(EndedLine(body)), None, {}))
  }

  /** The editor and the parser agree on a body: after the edit the parser reads the
      given endpoint from it, and no other service changes; or it reads what the
      removal leaves. */
  lemma {:induction false} EditBodyReads(body: string, url: Option<string>, other: string)
    requires NoBrackets(Chunks(body)) && (url.Some? ==> '\n' !in url.value)
    ensures var edited := EditBody(body, url);
            && UrlOf(Endpoints(Chunks(edited), None)) == ReportedAfter(body, url)
            && (url.None? ==> Endpoints(Chunks(edited), None) == Left(Chunks(EndedLine(body)), None, {}))
            && (url.Some? && other !in VALUE_SOURCE_SERVICES ==>
                  Of(Endpoints(Chunks(edited), None), other) == Of(Endpoints(Chunks(body), None), other))
            && NoBrackets(Chunks(edited)) && (edited != body ==> EndsLine(edited))
  {
    hide Chunks, Endpoints, UrlOf, NoBrackets, EditLines, Flatten, TrimBreaks, AllBodyLines, Of, Left;
    var lines := Chunks(EndedLine(body));
    EndedShape(body);
    EndedMeaning(body);
    ChunksTerminated(EndedLine(body));
    BodyLinesForm(lines);
    EditLinesBody(lines, url);
    var lines' := EditLines(lines, url);
    BodyLinesForm(lines');
    var edited := Flatten(lines');
    ListOfTerminated(lines');
    ChunksOfFlatten(lines');
    TerminatedEndsLine(lines');
    match url {
      case Some(u) => SetLinesReads(lines, u, other);
      case None => RemoveLinesMeaning(lines);
    }
    TrimBreaksMeaning(edited);
    TrimBreaksMeaning(body);
  }

  lemma {:induction false} ListOfTerminated(ls: seq<string>)
    requires AllTerminated(ls)
    ensures ChunkList(ls)
  {
  }

  // ---------------------------------------------------------------------
  // The text of a located section
  // ---------------------------------------------------------------------

  lemma {:induction false} LocatedText(contents: string, header: string, section: seq<string>)
    requires SectionOf(Chunks(contents), header) == Some(section)
    ensures section != [] && ChunkList(section) && SectionRaw(contents, header) == Some(Flatten(section))
    ensures var raw := Flatten(section);
            && Chunks(BodyText(raw)) == section[1..] && HeaderLine(raw) == EndedLine(section[0])
  {
    hide Chunks, SectionOf, BodyLines;
    BodyLinesOf(contents, header, section);
    var raw := Flatten(section);
    var tail := section[1..];
    assert raw == section[0] + Flatten(tail);
    ChunkListSlice(section, 1, |section|);
    assert section[1..|section|] == tail;
    assert |section| == 1 ==> Flatten(tail) == "";
    FirstLengthOfChunk(section[0], Flatten(tail));
    ChunksOfFlatten(tail);
  }

  // ---------------------------------------------------------------------
  // Replacing a section in the meaning of the file
  // ---------------------------------------------------------------------

  /** The cut a located section makes in a file. */
  datatype Cut = Cut(i: nat, j: nat)

  predicate CutAt(cs: seq<string>, header: string, c: Cut) {
    && c.i == HeaderIndex(cs, header) < |cs|
    && c.j == SectionEnd(cs, c.i)
  }

  lemma {:induction false} CutOf(cs: seq<string>, header: string, section: seq<string>) returns (c: Cut)
    requires SectionOf(cs, header) == Some(section)
    ensures CutAt(cs, header, c) && section == cs[c.i..c.j] && section != []
  {
    hide HeaderIndex, BodyLength;
    SectionAtIndex(cs, header);
    c := Cut(HeaderIndex(cs, header), SectionEnd(cs, HeaderIndex(cs, header)));
  }

  lemma {:induction false} CloseParts(cs: seq<string>, i: nat, j: nat)
    requires ClosedHeaders(cs) && i <= j <= |cs|
    ensures ClosedHeaders(cs[..i]) && ClosedHeaders(cs[i..j]) && ClosedHeaders(cs[j..])
  {
    hide IsBracket, IsHeader;
  }

  lemma {:induction false} CloseJoin(a: seq<string>, b: seq<string>)
    requires ClosedHeaders(a) && ClosedHeaders(b)
    ensures ClosedHeaders(a + b)
  {
    hide IsBracket, IsHeader;
  }

  /** A block whose first line is a header and whose other lines open nothing. */
  lemma {:induction false} BlockDoc(block: seq<string>)
    requires block != [] && IsHeader(block[0]) && NoBrackets(block[1..])
    ensures Doc(block) == [SectionFrom(block[0], block[1..])] && ClosedHeaders(block)
  {
    hide IsBracket, IsHeader, Doc, SectionFrom;
    NoBracketsPlain(block[1..]);
    DocOne(block[0], block[1..]);
    assert block == [block[0]] + block[1..];
    assert ClosedHeaders([block[0]]);
    CloseJoin([block[0]], block[1..]);
  }

  lemma {:induction false} ReplaceDoc(contents: string, header: string, c: Cut, block: string)
    requires IsHeaderName(header) && ClosedHeaders(Chunks(contents)) && CutAt(Chunks(contents), header, c)
    requires EndsLine(block) && Chunks(block) != [] && IsHeader(Chunks(block)[0]) && NoBrackets(Chunks(block)[1..])
    ensures var cs, bs, after := Chunks(contents), Chunks(block), Chunks(ReplaceSection(contents, header, block));
            && Doc(cs) == Doc(cs[..c.i]) + [SectionFrom(cs[c.i], cs[c.i + 1..c.j])] + Doc(cs[c.j..])
            && Doc(after) == Doc(cs[..c.i]) + [SectionFrom(bs[0], bs[1..])] + Doc(cs[c.j..])
            && ClosedHeaders(after)
            && after == cs[..c.i] + bs + cs[c.j..]
  {
    hide IsBracket, IsHeader, Doc, SectionFrom, Chunks, NoBrackets, ClosedHeaders, HeaderIndex, BodyLength, EndsLine;
    var cs, bs := Chunks(contents), Chunks(block);
    DocAroundSection(cs, header, c.i, c.j);
    ReplaceChunks(contents, header, block);
    BlockDoc(bs);
    DocConcat(cs[..c.i] + bs, cs[c.j..]);
    DocConcat(cs[..c.i], bs);
    CloseParts(cs, c.i, c.j);
    CloseJoin(cs[..c.i], bs);
    CloseJoin(cs[..c.i] + bs, cs[c.j..]);
  }

  /** Rewriting the profile block changes the `services` key of that section and
      nothing else in the meaning of the file. */
  lemma {:induction false} RelinkDoc(contents: string, profileName: string, c: Cut,
          name: Option<string>) returns (s': Section)
    requires ClosedHeaders(Chunks(contents)) && GoodHeader(ProfileHeader(profileName))
    requires CutAt(Chunks(contents), ProfileHeader(profileName), c)
    requires TidyFrom(Chunks(contents)[c.i + 1..c.j], None)
    requires name.Some? ==> name.value != "" && GoodValue(name.value)
    ensures var cs, after := Chunks(contents), Chunks(Relink(contents, profileName, name));
            && s'.header == ProfileHeader(profileName)
            && s'.keys == Relinked(Keys(cs[c.i + 1..c.j]), name)
            && Doc(after) == Doc(cs[..c.i]) + [s'] + Doc(cs[c.j..])
            && ClosedHeaders(after)
  {
    hide IsBracket, IsHeader, Doc, Chunks, NoBrackets, ClosedHeaders, HeaderIndex, BodyLength, EndsLine, Keys,
         TidyFrom, ProfileHeader, GoodHeader, RelinkBlock, Relinked, GoodValue, Trim, Endpoints, SectionOf;
    var header := ProfileHeader(profileName);
    var cs := Chunks(contents);
    var section := cs[c.i..c.j];
    SectionAtIndex(cs, header);
    assert section[1..] == cs[c.i + 1..c.j];
    RelinkedBlock(contents, header, section, name);
    var block := RelinkBlock(contents, header, name);
    var bs := Chunks(block);
    RelinkIsReplace(contents, profileName, name, section);
    HeaderForm(header, bs[0]);
    BlockShape(block, header);
    ReplaceDoc(contents, header, c, block);
    s' := SectionFrom(bs[0], bs[1..]);
  }

  lemma {:induction false} RelinkIsReplace(contents: string, profileName: string, name: Option<string>,
          section: seq<string>)
    requires SectionOf(Chunks(contents), ProfileHeader(profileName)) == Some(section)
    ensures var header := ProfileHeader(profileName);
            Relink(contents, profileName, name) == ReplaceSection(contents, header, RelinkBlock(contents, header, name))
  {
    hide Chunks, SectionOf, ProfileHeader, ProfileBlock;
  }

  lemma {:induction false} HeaderForm(header: string, c: string)
    requires GoodHeader(header) && Trim(c) == header
    ensures IsHeader(c) && IsHeaderName(header)
  {
    hide Trim;
  }

  lemma {:induction false} BlockShape(block: string, header: string)
    requires IsBlock(block, header)
    ensures EndsLine(block) && Chunks(block) != [] && NoBrackets(Chunks(block)[1..])
  {
    hide Chunks, IsBracket, Matches;
    var bs := Chunks(block);
    assert forall k | 1 <= k < |bs| :: !IsBracket(bs[k]);
  }

  // ---------------------------------------------------------------------
  // Appending a section
  // ---------------------------------------------------------------------

  lemma {:induction false} SectionChunks(header: string, body: string)
    requires OneLine(header)
    ensures Chunks(header + "\n" + TrimBreaks(body) + "\n") == [header + "\n"] + Chunks(TrimBreaks(body) + "\n")
    ensures EndsLine(header + "\n" + TrimBreaks(body) + "\n")
  {
    hide Chunks, TrimBreaks;
    assert Terminated(header + "\n");
    ConcatAssoc(header + "\n", TrimBreaks(body), "\n");
    ChunksCons(header + "\n", TrimBreaks(body) + "\n");
  }

  lemma {:induction false} TrimmedBody(body: string)
    requires NoBrackets(Chunks(body))
    ensures var cs := Chunks(TrimBreaks(body) + "\n");
            NoBrackets(cs) && Endpoints(cs, None) == Endpoints(Chunks(body), None)
  {
    hide Chunks, TrimBreaks, NoBrackets, Endpoints;
    TrimBreaksShape(body);
    TrimBreaksMeaning(body);
    AddBreakShape(TrimBreaks(body), '\n');
    AddBreak(TrimBreaks(body), '\n');
  }

  lemma {:induction false} PaddedDoc(contents: string)
    ensures var pad := if contents == "" then "" else EndedLine(contents) + "\n";
            && EndsLine(pad) && Doc(Chunks(pad)) == Doc(Chunks(contents))
            && ClosedHeaders(Chunks(pad)) == ClosedHeaders(Chunks(contents))
  {
    hide Chunks, Doc, ClosedHeaders, EndedLine;
    if contents != "" {
      EndedMeaning(contents);
      EndedShape(contents);
      AddBreak(EndedLine(contents), '\n');
      AddBreakShape(EndedLine(contents), '\n');
    }
  }

  /** An appended section is one more section of the file, with the endpoints of
      the body it was given. */
  lemma {:induction false} AppendDoc(contents: string, header: string, body: string) returns (s': Section)
    requires GoodHeader(header) && NoBrackets(Chunks(body))
    ensures var cs, after := Chunks(contents), Chunks(AppendSection(contents, header, body));
            && s'.header == header && s'.endpoints == Endpoints(Chunks(body), None)
            && Doc(after) == Doc(cs) + [s']
            && (ClosedHeaders(cs) ==> ClosedHeaders(after))
  {
    hide Chunks, Doc, ClosedHeaders, NoBrackets, TrimBreaks, Trim, IsHeader, Endpoints, Keys;
    var pad := if contents == "" then "" else EndedLine(contents) + "\n";
    var block := header + "\n" + TrimBreaks(body) + "\n";
    AppendParts(contents, header, body, pad, block);
    PaddedDoc(contents);
    SectionChunks(header, body);
    TrimmedBody(body);
    ChunksConcat(pad, block);
    TrimPadded("", header, "\n");
    assert "" + header + "\n" == header + "\n";
    TrimOfTrimmed(header);
    HeaderForm(header, header + "\n");
    var bs := Chunks(block);
    assert bs[1..] == Chunks(TrimBreaks(body) + "\n");
    BlockDoc(bs);
    DocConcat(Chunks(pad), bs);
    s' := SectionFrom(bs[0], bs[1..]);
    if ClosedHeaders(Chunks(contents)) { CloseJoin(Chunks(pad), bs); }
  }

  lemma {:induction false} AppendParts(contents: string, header: string, body: string, pad: string, block: string)
    requires pad == if contents == "" then "" else EndedLine(contents) + "\n"
    requires block == header + "\n" + TrimBreaks(body) + "\n"
    ensures AppendSection(contents, header, body) == pad + block
  {
    hide TrimBreaks, EndedLine;
    var h, t, n := header, TrimBreaks(body), "\n";
    assert pad + h + n + t + n == pad + (h + n + t + n);
  }

  // ---------------------------------------------------------------------
  // Replacing the body of a section, and removing a section
  // ---------------------------------------------------------------------

  lemma {:induction false} HeaderLineReads(c: string)
    requires IsChunk(c)
    ensures Terminated(EndedLine(c)) && Trim(EndedLine(c)) == Trim(c)
  {
    hide Trim;
    if !EndsLine(c) {
      TrimPadded("", c, "\n");
      assert "" + c + "\n" == c + "\n";
    }
  }

  lemma {:induction false} ReplaceBodyDoc(contents: string, header: string, c: Cut, body: string)
    requires IsHeaderName(header) && ClosedHeaders(Chunks(contents)) && CutAt(Chunks(contents), header, c)
    requires EndsLine(body) && NoBrackets(Chunks(body))
    ensures var cs := Chunks(contents);
            var raw := Flatten(cs[c.i..c.j]);
            var after := Chunks(ReplaceSectionBody(contents, header, raw, body));
            && Doc(cs) == Doc(cs[..c.i]) + [SectionFrom(cs[c.i], cs[c.i + 1..c.j])] + Doc(cs[c.j..])
            && Doc(after) == Doc(cs[..c.i]) + [SectionFrom(cs[c.i], Chunks(body))] + Doc(cs[c.j..])
            && ClosedHeaders(after)
  {
    hide Chunks, Doc, ClosedHeaders, NoBrackets, Trim, IsHeader, Endpoints, Keys, HeaderIndex, BodyLength, EndedLine,
         SectionOf, Flatten, BodyText;
    var cs := Chunks(contents);
    var section := cs[c.i..c.j];
    SectionAtIndex(cs, header);
    LocatedText(contents, header, section);
    var hd := EndedLine(section[0]);
    HeaderLineReads(section[0]);
    ChunksCons(hd, body);
    DocAroundSection(cs, header, c.i, c.j);
    SameTrimHeader(hd, cs[c.i]);
    var block := hd + body;
    var bs := Chunks(block);
    assert bs[1..] == Chunks(body);
    JoinEnds(hd, body);
    ReplaceDoc(contents, header, c, block);
  }

  lemma {:induction false} SameTrimHeader(c: string, d: string)
    requires Trim(c) == Trim(d)
    ensures IsHeader(c) == IsHeader(d)
  {
  }

  lemma {:induction false} JoinEnds(a: string, b: string)
    requires Terminated(a) && EndsLine(b)
    ensures EndsLine(a + b)
  {
  }

  lemma {:induction false} RemoveDoc(contents: string, header: string, c: Cut)
    requires IsHeaderName(header) && ClosedHeaders(Chunks(contents)) && CutAt(Chunks(contents), header, c)
    ensures var cs, after := Chunks(contents), Chunks(RemoveSection(contents, header));
            Doc(after) == Doc(cs[..c.i]) + Doc(cs[c.j..]) && ClosedHeaders(after)
  {
    hide Chunks, Doc, ClosedHeaders, Trim, IsHeader, IsBracket, HeaderIndex, BodyLength, TrimBreaks, EndsLine;
    var cs := Chunks(contents);
    DocAroundSection(cs, header, c.i, c.j);
    CloseParts(cs, c.i, c.j);
    var before, after := Flatten(cs[..c.i]), Flatten(cs[c.j..]);
    ChunkListSlice(cs, 0, c.i);
    ChunkListSlice(cs, c.j, |cs|);
    assert cs[0..c.i] == cs[..c.i] && cs[c.j..|cs|] == cs[c.j..];
    ChunksOfFlatten(cs[..c.i]);
    ChunksOfFlatten(cs[c.j..]);
    if after != "" {
      PrefixTerminated(cs, c.i);
      TerminatedEndsLine(cs[..c.i]);
      ChunksConcat(before, after);
      DocConcat(cs[..c.i], cs[c.j..]);
      CloseJoin(cs[..c.i], cs[c.j..]);
    } else {
      NoChunks();
      assert cs[c.j..] == [];
      assert Doc(cs[..c.i]) + [] == Doc(cs[..c.i]);
      TrimBreaksMeaning(before);
      TrimBreaksShape(before);
      AddBreak(TrimBreaks(before), '\n');
      AddBreakShape(TrimBreaks(before), '\n');
    }
  }

  lemma {:induction false} NoChunks()
    ensures Chunks("") == [] && Doc([]) == []
  {
  }

  lemma {:induction false} PrefixTerminated(cs: seq<string>, i: nat)
    requires ChunkList(cs) && i < |cs|
    ensures AllTerminated(cs[..i])
  {
    hide IsChunk, Terminated;
  }
}

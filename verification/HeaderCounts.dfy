/** How often a header occurs in a file, and what edits do to that number. */
module HeaderCounts {
  import opened Text
  import opened Sections
  import opened AwsParser
  import opened DocEdits
  import opened MergeWriter
  import opened ProfileWriter
  import opened ProfileKeys
  import opened ServicesEditor
  import opened EndpointEditor
  import opened EndpointOps
  import opened EndpointMeaning
  import opened EndpointTheorems
  import opened EndpointIdempotence

  /** The number of lines that name `header`. */
  function Count(cs: seq<string>, header: string): nat {
    if cs == [] then 0 else (if Matches(cs[0], header) then 1 else 0) + Count(cs[1..], header)
  }

  lemma {:induction false} CountConcat(a: seq<string>, b: seq<string>, header: string)
    ensures Count(a + b, header) == Count(a, header) + Count(b, header)
  {
    hide Matches;
    if a == [] {
      assert a + b == b;
    } else {
      assert (a + b)[1..] == a[1..] + b;
      CountConcat(a[1..], b, header);
    }
  }

  lemma {:induction false} CountFound(cs: seq<string>, header: string)
    ensures Count(cs, header) > 0 <==> SectionOf(cs, header).Some?
  {
    hide Matches;
    if cs != [] { CountFound(cs[1..], header); }
  }

  lemma {:induction false} CountPlain(cs: seq<string>, header: string)
    requires IsHeaderName(header) && NoBrackets(cs)
    ensures Count(cs, header) == 0
  {
    hide Matches, IsBracket;
    if cs != [] {
      CountPlain(cs[1..], header);
      if Matches(cs[0], header) { MatchIsBracket(cs[0], header); }
    }
  }

  /** A section is named once, by its own header. */
  lemma {:induction false} CountSection(s: seq<string>, own: string, header: string)
    requires IsHeaderName(header) && OneSection(s, own)
    ensures Count(s, header) == if EqIgnoreCase(own, header) then 1 else 0
  {
    hide IsBracket;
    CountPlain(s[1..], header);
  }

  lemma {:induction false} CountTrims(cs: seq<string>, ds: seq<string>, header: string)
    requires SameTrims(cs, ds)
    ensures Count(cs, header) == Count(ds, header)
  {
    hide Trim, Lower;
    if cs != [] { CountTrims(cs[1..], ds[1..], header); }
  }

  lemma {:induction false} CountEnded(contents: string, header: string)
    ensures Count(Chunks(EndedLine(contents)), header) == Count(Chunks(contents), header)
  {
    hide Chunks, EndedLine, Count;
    ChunksOfEnded(contents);
    CountTrims(Chunks(contents), Chunks(EndedLine(contents)), header);
  }

  /** A text of whole lines counts with what follows it. */
  lemma {:induction false} CountJoined(a: string, b: string, header: string)
    requires EndsLine(a)
    ensures Count(Chunks(a + b), header) == Count(Chunks(a), header) + Count(Chunks(b), header)
  {
    hide Chunks, Count;
    ChunksConcat(a, b);
    CountConcat(Chunks(a), Chunks(b), header);
  }

  lemma {:induction false} CountBlank(header: string)
    requires IsHeaderName(header)
    ensures Count(Chunks("\n"), header) == 0
  {
    hide Count;
    BlankIsPlain();
    CountPlain(Chunks("\n"), header);
  }

  lemma {:induction false} BlankIsPlain()
    ensures NoBrackets(Chunks("\n"))
  {
    assert FirstLength("\n") == 1 && "\n"[..1] == "\n" && "\n"[1..] == "";
    assert Chunks("\n") == ["\n"] + Chunks("");
    TrimPadded("", "", "\n");
    assert "" + "" + "\n" == "\n";
  }

  lemma {:induction false} CountPadded(contents: string, header: string)
    requires IsHeaderName(header)
    ensures var pad := if contents == "" then "" else EndedLine(contents) + "\n";
            EndsLine(pad) && Count(Chunks(pad), header) == Count(Chunks(contents), header)
  {
    hide Chunks, Count, EndedLine;
    if contents != "" {
      CountEnded(contents, header);
      CountJoined(EndedLine(contents), "\n", header);
      CountBlank(header);
    }
  }

  // ---------------------------------------------------------------------
  // Edits
  // ---------------------------------------------------------------------

  /** A text that is one section. */
  lemma {:induction false} CountBlock(block: string, own: string, header: string)
    requires IsHeaderName(header) && IsBlock(block, own)
    ensures Count(Chunks(block), header) == if EqIgnoreCase(own, header) then 1 else 0
  {
    hide Chunks, Count, OneSection, Lower;
    CountSection(Chunks(block), own, header);
  }

  lemma {:induction false} CountAppended(contents: string, own: string, body: string, header: string)
    requires IsHeaderName(header) && GoodHeader(own) && NoBrackets(Chunks(body))
    ensures Count(Chunks(AppendSection(contents, own, body)), header)
         == Count(Chunks(contents), header) + if EqIgnoreCase(own, header) then 1 else 0
  {
    hide Chunks, Count, NoBrackets, TrimBreaks, Trim, AppendSection, Lower, EndsLine, OneLine, IsBracket;
    var pad := if contents == "" then "" else EndedLine(contents) + "\n";
    var block := own + "\n" + TrimBreaks(body) + "\n";
    AppendParts(contents, own, body, pad, block);
    HeaderOneLine(own);
    SectionChunks(own, body);
    TrimmedBody(body);
    HeadedSection(own, Chunks(TrimBreaks(body) + "\n"));
    CountPadded(contents, header);
    CountJoined(pad, block, header);
    CountBlock(block, own, header);
  }

  lemma {:induction false} CountAddBreak(s: string, b: char, header: string)
    requires IsLineBreak(b) && IsHeaderName(header)
    ensures Count(Chunks(s + [b]), header) == Count(Chunks(s), header)
  {
    hide Chunks, Count, Trim, EndsLine, IsBracket;
    ChunksAddBreak(s, b);
    var cs := Chunks(s);
    if EndsLine(s) {
      TrimBreak(b);
      BlankNoMatch([b], header);
      CountConcat(cs, [[b]], header);
      CountPlain([[b]], header);
    } else {
      var init, last := cs[..|cs| - 1], cs[|cs| - 1];
      assert cs == init + [last];
      SameReadsLast(init, last, b);
      CountTrims(init + [last + [b]], cs, header);
    }
  }

  lemma {:induction false} CountTrimBreaks(s: string, header: string)
    requires IsHeaderName(header)
    ensures Count(Chunks(TrimBreaks(s)), header) == Count(Chunks(s), header)
  {
    hide Chunks, Count;
    if s != "" && IsLineBreak(s[|s| - 1]) {
      CountTrimBreaks(s[..|s| - 1], header);
      CountAddBreak(s[..|s| - 1], s[|s| - 1], header);
      assert s == s[..|s| - 1] + [s[|s| - 1]];
    }
  }

  /** Removing a section takes its header once. */
  lemma {:induction false} CountRemoved(contents: string, own: string, header: string)
    requires IsHeaderName(header) && IsHeaderName(own) && SectionOf(Chunks(contents), own).Some?
    ensures Count(Chunks(RemoveSection(contents, own)), header) + (if EqIgnoreCase(own, header) then 1 else 0)
         == Count(Chunks(contents), header)
  {
    hide Chunks, Count, OneSection, Lower, HeaderIndex, BodyLength, SectionOf, TrimBreaks, EndsLine, Flatten,
         IsHeaderName;
    var cs := Chunks(contents);
    SectionAtIndex(cs, own);
    var i := HeaderIndex(cs, own);
    var j := SectionEnd(cs, i);
    SectionBounds(cs, own);
    CountSection(cs[i..j], own, header);
    CountConcat(cs[..i], cs[i..j], header);
    CountConcat(cs[..i] + cs[i..j], cs[j..], header);
    assert cs == cs[..i] + cs[i..j] + cs[j..];
    var before, after := Flatten(cs[..i]), Flatten(cs[j..]);
    ChunkListSlice(cs, 0, i);
    ChunkListSlice(cs, j, |cs|);
    assert cs[0..i] == cs[..i] && cs[j..|cs|] == cs[j..];
    ChunksOfFlatten(cs[..i]);
    ChunksOfFlatten(cs[j..]);
    NoHeaders(header);
    if after != "" {
      PrefixTerminated(cs, i);
      TerminatedEndsLine(cs[..i]);
      CountJoined(before, after, header);
    } else {
      CountTrimBreaks(before, header);
      CountAddBreak(TrimBreaks(before), '\n', header);
    }
  }

  lemma {:induction false} NoHeaders(header: string)
    ensures Chunks("") == [] && Count([], header) == 0
  {
    EmptyBody();
  }

  /** Replacing a section keeps every count. */
  lemma {:induction false} CountReplaced(contents: string, own: string, block: string, header: string)
    requires IsHeaderName(header) && IsHeaderName(own) && IsBlock(block, own) && SectionOf(Chunks(contents), own).Some?
    ensures Count(Chunks(ReplaceSection(contents, own, block)), header) == Count(Chunks(contents), header)
  {
    hide Chunks, Count, OneSection, Lower, HeaderIndex, BodyLength, ReplaceSection, SectionOf;
    var cs := Chunks(contents);
    SectionAtIndex(cs, own);
    var i := HeaderIndex(cs, own);
    var j := SectionEnd(cs, i);
    SectionBounds(cs, own);
    ReplaceChunks(contents, own, block);
    CountSection(cs[i..j], own, header);
    CountBlock(block, own, header);
    CountConcat(cs[..i], Chunks(block), header);
    CountConcat(cs[..i] + Chunks(block), cs[j..], header);
    CountConcat(cs[..i], cs[i..j], header);
    CountConcat(cs[..i] + cs[i..j], cs[j..], header);
    assert cs == cs[..i] + cs[i..j] + cs[j..];
  }

  /** A profile block is appended under the header that is looked for, if that is
      not there. */
  function Stray(contents: string, profileName: string, header: string): nat {
    if Count(Chunks(contents), ProfileHeader(profileName)) == 0 && EqIgnoreCase(ProfileHeader(profileName), header) then 1 else 0
  }

  lemma {:induction false} CountBlockAppended(contents: string, own: string, block: string, header: string)
    requires IsHeaderName(header) && IsBlock(block, own)
    ensures Count(Chunks(AppendBlock(contents, block)), header)
         == Count(Chunks(contents), header) + if EqIgnoreCase(own, header) then 1 else 0
  {
    hide Chunks, Count, EndedLine, IsBlock, EqIgnoreCase;
    CountEnded(contents, header);
    CountJoined(EndedLine(contents), "\n", header);
    CountBlank(header);
    CountJoined(EndedLine(contents) + "\n", block, header);
    CountBlock(block, own, header);
  }

  lemma {:induction false} CountRelinked(contents: string, profileName: string, link: Option<string>, header: string)
    requires IsHeaderName(header) && GoodHeader(ProfileHeader(profileName)) && (link.Some? ==> GoodValue(link.value))
    ensures Count(Chunks(Relink(contents, profileName, link)), header)
         == Count(Chunks(contents), header) + Stray(contents, profileName, header)
  {
    hide Chunks, Count, Lower, SectionOf, ProfileHeader, ProfileBlock, GoodValue, IsBlock, Merged, BodyLines,
         ReadEntries, StripEntries, Lines, ReplaceSection, OneLine, AppendBlock;
    var own := ProfileHeader(profileName);
    RelinkFieldsGood(link);
    ProfileBlockReadsBack(own, contents, RelinkFields(link), RelinkRemoved(link));
    var block := ProfileBlock(own, contents, RelinkFields(link), RelinkRemoved(link));
    CountFound(Chunks(contents), own);
    if SectionOf(Chunks(contents), own).Some? {
      CountReplaced(contents, own, block, header);
    } else {
      CountBlockAppended(contents, own, block, header);
    }
  }

  /** A profile gets a new `[services]` section; no other header goes. */
  lemma {:induction false} CountLinked(contents: string, profileName: string, body: string, header: string)
    requires IsHeaderName(header) && GoodHeader(ProfileHeader(profileName)) && GoodName(profileName) && NoBrackets(Chunks(body))
    ensures var profiles := Parse(contents);
            var m := FreshName(contents, profiles, profileName);
            Count(Chunks(LinkNewSection(contents, profiles, profileName, body)), header)
              == Count(Chunks(contents), header) + Stray(contents, profileName, header)
                 + if EqIgnoreCase(ServicesHeader(m), header) then 1 else 0
  {
    hide Chunks, Count, Lower, SectionOf, ProfileHeader, GoodValue, OneLine, NoBrackets, Relink, AppendSection,
         FreshName, IsTaken, Parse, GoodName, HeaderKind, ServicesHeader, Stray, EqIgnoreCase;
    var profiles := Parse(contents);
    var m := FreshName(contents, profiles, profileName);
    FreshNameGood(contents, profiles, profileName);
    ServicesHeaderKind(m);
    CountRelinked(contents, profileName, Some(m), header);
    CountAppended(Relink(contents, profileName, Some(m)), ServicesHeader(m), body, header);
  }

  // ---------------------------------------------------------------------
  // Setting an endpoint
  // ---------------------------------------------------------------------

  ghost predicate GoodKeys(keys: map<string, string>) {
    forall k | k in keys :: Trimmed(keys[k]) && OneLine(keys[k])
  }

  lemma {:induction false} DocGood(cs: seq<string>)
    requires forall k | 0 <= k < |cs| :: IsChunk(cs[k])
    ensures forall s | s in Doc(cs) :: GoodKeys(s.keys)
    decreases |cs|
  {
    hide IsHeader, IsChunk, Keys, Endpoints, Trim, GoodKeys;
    if cs != [] {
      if IsHeader(cs[0]) {
        var n := PlainLength(cs[1..]);
        var first, rest := SectionFrom(cs[0], cs[1..1 + n]), Doc(cs[1 + n..]);
        DocGood(cs[1 + n..]);
        BodyKeysGood(cs[1..1 + n]);
        assert forall s | s in [first] + rest :: s == first || s in rest;
      } else {
        DocGood(cs[1..]);
      }
    }
  }

  lemma {:induction false} BodyKeysGood(body: seq<string>)
    requires forall k | 0 <= k < |body| :: IsChunk(body[k])
    ensures GoodKeys(Keys(body))
  {
    hide Keys, IsChunk;
    KeysGood(body);
  }

  lemma {:induction false} EntriesGood(doc: seq<Section>)
    requires forall s | s in doc :: GoodKeys(s.keys)
    ensures forall e | e in Entries(doc) :: e.services.Some? ==> Trimmed(e.services.value) && OneLine(e.services.value)
  {
    hide HeaderKind, Trimmed, OneLine;
    if doc != [] {
      assert doc[0] in doc;
      EntriesGood(doc[1..]);
      var first, rest := EntryOf(HeaderKind(doc[0].header), doc[0].keys), Entries(doc[1..]);
      assert forall e | e in first + rest :: e in first || e in rest;
    }
  }

  /** A reference is read from one line. */
  lemma {:induction false} ReferencesGood(contents: string, i: nat)
    requires i < |Parse(contents)|
    ensures var p := Parse(contents)[i];
            p.services.Some? ==> Trimmed(p.services.value) && OneLine(p.services.value)
  {
    hide Chunks, Doc, Entries, Trimmed, OneLine, UrlOf, EndpointsOf, Lower;
    var es := Entries(Doc(Chunks(contents)));
    DocGood(Chunks(contents));
    EntriesGood(Doc(Chunks(contents)));
    assert es[i] in es;
  }

  /** No header of a `[services]` section. */
  predicate NotServices(header: string) {
    !("[services " <= Lower(header))
  }

  lemma {:induction false} ServicesDiffer(name: string, header: string)
    requires NotServices(header)
    ensures !EqIgnoreCase(ServicesHeader(name), header)
  {
    hide Lower;
    LowerConcat("[services " + name, "]");
    LowerConcat("[services ", name);
    LowerWord();
    var a := Lower(name) + Lower("]");
    assert Lower(ServicesHeader(name)) == "[services " + a;
    assert "[services " <= "[services " + a;
  }

  lemma {:induction false} LowerWord()
    ensures Lower("[services ") == "[services "
  {
  }

  /** The edited body stands in one section. */
  lemma {:induction false} CountBodyReplaced(contents: string, own: string, section: seq<string>, body: string,
          header: string)
    requires IsHeaderName(header) && IsHeaderName(own) && SectionOf(Chunks(contents), own) == Some(section)
    requires NoBrackets(Chunks(body)) && EndsLine(body)
    ensures Count(Chunks(ReplaceSectionBody(contents, own, Flatten(section), body)), header) == Count(Chunks(contents), header)
  {
    hide Chunks, Count, Lower, SectionOf, EndsLine, ReplaceSection, Trim, Flatten, HeaderIndex, BodyLength;
    var cs := Chunks(contents);
    SectionAtIndex(cs, own);
    SectionBounds(cs, own);
    LocatedText(contents, own, section);
    var hd := EndedLine(section[0]);
    HeaderLineReads(section[0]);
    ChunksCons(hd, body);
    JoinEnds(hd, body);
    BlockOfHeader(hd, section[0], own, Chunks(body));
    CountReplaced(contents, own, hd + body, header);
  }

  /** Setting the endpoint points the profile at a new section: it has none, or one
      that must change and is shared. */
  predicate Relinks(contents: string, profileName: string, url: string) {
    var profiles := Parse(contents);
    var t := TargetIndex(profiles, profileName);
    t < |profiles| &&
    match profiles[t].services
    case None => true
    case Some(section) => MustSplit(contents, profileName, section, url)
  }

  predicate MustSplit(contents: string, profileName: string, section: string, url: string) {
    var body := ReferencedBody(contents, section);
    EditBody(body, Some(url)) != body && IsShared(Parse(contents), profileName, section)
  }

  lemma {:induction false} CountEdited(contents: string, profileName: string, section: string, url: string,
          header: string)
    requires IsHeaderName(header) && GoodName(profileName) && GoodHeader(ProfileHeader(profileName)) && OneLine(url) && OneLine(section)
    ensures var before := Count(Chunks(contents), header);
            var after := Count(Chunks(EditSection(contents, Parse(contents), profileName, section, Some(url))), header);
            var stray := if MustSplit(contents, profileName, section, url) then Stray(contents, profileName, header) else 0;
            after >= before && (NotServices(header) ==> after == before + stray)
  {
    hide Chunks, Count, Lower, NoBrackets, EditBody, HasProperties, IsShared, LinkNewSection, Relink, RemoveSection,
         ReplaceSectionBody, AppendSection, ProfileHeader, GoodName, Parse, NotServices, EqIgnoreCase, Endpoints,
         UrlOf, BodyText, Flatten, Reported, Stray;
    var own := ServicesHeader(section);
    var existing := SectionRaw(contents, own);
    var body := ReferencedBody(contents, section);
    if existing.Some? {
      LocatedBody(contents, own);
    } else {
      EmptyBody();
    }
    EditBodyReads(body, Some(url), "");
    ReportedSome(Some(url));
    var edited := EditBody(body, Some(url));
    EndpointIsProperty(edited);
    if NotServices(header) {
      ServicesDiffer(section, header);
      ServicesDiffer(FreshName(contents, Parse(contents), profileName), header);
    }
    if edited != body {
      CountLinked(contents, profileName, edited, header);
      if existing.Some? {
        CountBodyReplaced(contents, own, SectionOf(Chunks(contents), own).value, edited, header);
      } else {
        ServicesHeaderGood(section);
        CountAppended(contents, own, edited, header);
      }
    }
  }

  lemma {:induction false} LocatedBody(contents: string, own: string)
    requires SectionRaw(contents, own).Some? && IsHeaderName(own)
    ensures NoBrackets(Chunks(BodyText(SectionRaw(contents, own).value)))
  {
    hide Chunks, SectionOf, BodyText, Flatten, HeaderIndex, BodyLength, Lower, Trim;
    var cs := Chunks(contents);
    var section := SectionOf(cs, own).value;
    SectionAtIndex(cs, own);
    SectionBounds(cs, own);
    LocatedText(contents, own, section);
  }

  /** Setting an endpoint takes away no header, and adds none but of a `[services]`
      section, and that of the profile if the profile is pointed at a new section and
      its header is not there. */
  lemma {:induction false} CountApplied(contents: string, profileName: string, url: string, header: string)
    requires IsHeaderName(header) && GoodName(profileName) && GoodHeader(ProfileHeader(profileName)) && OneLine(url)
    ensures var before, after := Count(Chunks(contents), header), Count(Chunks(Apply(contents, profileName, Some(url))), header);
            var stray := if Relinks(contents, profileName, url) then Stray(contents, profileName, header) else 0;
            after >= before && (NotServices(header) ==> after == before + stray)
  {
    hide Chunks, Count, Lower, NoBrackets, EditBody, LinkNewSection, EditSection, ProfileHeader, OneLine, GoodName,
         Parse, NotServices, EqIgnoreCase, SectionOf, TargetIndex, Reported, Endpoints, UrlOf, Stray, MustSplit;
    var profiles := Parse(contents);
    var t := TargetIndex(profiles, profileName);
    if t < |profiles| {
      ReferencesGood(contents, t);
      if profiles[t].services.Some? {
        CountEdited(contents, profileName, profiles[t].services.value, url, header);
      } else {
        FreshBody(url);
        if NotServices(header) {
          ServicesDiffer(FreshName(contents, profiles, profileName), header);
        }
        CountLinked(contents, profileName, EditBody("", Some(url)), header);
      }
    }
  }
}

/** Applying an endpoint edit twice is applying it once, byte for byte. */
module EndpointIdempotence {
  import opened Text
  import opened Sections
  import opened AwsParser
  import opened MergeWriter
  import opened ProfileWriter
  import opened ProfileKeys
  import opened ServicesEditor
  import opened ServicesStable
  import opened ServicesRemoval
  import opened ServicesTwice
  import opened EndpointEditor
  import opened EndpointOps
  import opened EndpointMeaning
  import opened EndpointBlank
  import opened EndpointTheorems

  // ---------------------------------------------------------------------
  // The edited body is finished
  // ---------------------------------------------------------------------

  predicate StableUrl(url: Option<string>) {
    url.Some? ==> GoodUrl(url.value)
  }

  lemma {:induction false} EditedForm(body: string, url: Option<string>)
    requires NoBrackets(Chunks(body)) && (url.Some? ==> '\n' !in url.value) && EditBody(body, url) != body
    ensures var lines := EditLines(Chunks(EndedLine(body)), url);
            && EditBody(body, url) == Flatten(lines) && AllTerminated(lines)
            && Chunks(EndedLine(EditBody(body, url))) == lines
  {
    hide Chunks, NoBrackets, EditLines, Flatten, TrimBreaks, AllBodyLines, Terminated;
    var start := Chunks(EndedLine(body));
    EndedShape(body);
    ChunksTerminated(EndedLine(body));
    BodyLinesForm(start);
    EditLinesBody(start, url);
    var lines := EditLines(start, url);
    BodyLinesForm(lines);
    ListOfTerminated(lines);
    ChunksOfFlatten(lines);
    TerminatedEndsLine(lines);
  }

  /** The edit has nothing left to do in these lines. */
  ghost predicate Finished(lines: seq<string>, url: Option<string>) {
    match url case Some(u) => AllDone(lines, u) case None => AllNothingToDo(lines)
  }

  /** One edit is enough for these lines. */
  predicate Suffices(lines: seq<string>, url: Option<string>) {
    url.None? ==> AllSettle(lines)
  }

  /** After an edit the body is finished if one edit is enough, also when its last line
      breaks are trimmed for a new section. */
  lemma {:induction false} EditedDone(body: string, url: Option<string>)
    requires NoBrackets(Chunks(body)) && StableUrl(url) && EditBody(body, url) != body
    requires Suffices(Chunks(EndedLine(body)), url)
    ensures var edited := EditBody(body, url);
            && Finished(Chunks(EndedLine(edited)), url)
            && (TrimBreaks(edited) != "" ==> Finished(Chunks(EndedLine(TrimBreaks(edited) + "\n")), url))
  {
    hide Chunks, NoBrackets, EditLines, Flatten, TrimBreaks, AllDone, AllNothingToDo, AllSettle, EditBody,
         AllTerminated;
    EditedForm(body, url);
    var edited := EditBody(body, url);
    match url {
      case Some(u) =>
        EditLinesDone(Chunks(EndedLine(body)), u);
        if TrimBreaks(edited) != "" {
          TrimmedBodyDone(EditLines(Chunks(EndedLine(body)), url), u);
        }
      case None =>
        RemoveAllSettles(Chunks(EndedLine(body)));
        TrimmedNothing(edited);
    }
  }

  /** Trimming the line breaks at the end changes nothing of what is to be done. */
  lemma {:induction false} TrimmedNothing(body: string)
    ensures AllNothingToDo(Chunks(EndedLine(TrimBreaks(body) + "\n"))) == AllNothingToDo(Chunks(EndedLine(body)))
  {
    hide Chunks, TrimBreaks, AllNothingToDo;
    TrimBreaksReads(body);
    AddBreakReads(TrimBreaks(body), '\n');
    if !EndsLine(body) { AddBreakReads(body, '\n'); }
  }

  lemma {:induction false} FinishedBody(body: string, url: Option<string>)
    requires Finished(Chunks(EndedLine(body)), url) && StableUrl(url)
    ensures EditBody(body, url) == body
  {
    hide Chunks, AllDone, AllNothingToDo, EditLines, EditBody;
    match url {
      case Some(u) => AllDoneStable(Chunks(EndedLine(body)), u);
      case None => RemoveAllShrinks(Chunks(EndedLine(body)));
    }
    StableBody(body, url);
  }

  lemma {:induction false} PropertiesNotBlank(body: string)
    requires HasProperties(body)
    ensures TrimBreaks(body) != ""
  {
    hide Chunks, Trim, KeyValue;
    if TrimBreaks(body) == "" {
      var i :| 0 <= i < |Lines(body)| && LineKeyValue(Lines(body)[i]).Some?;
      var c := Chunks(body)[i];
      TrimLine(c);
      FlattenChunks(body);
      ChunkOfBreaks(Chunks(body), i);
      BreaksAreBlank(c);
      EmptyKey();
    }
  }

  lemma {:induction false} ChunkOfBreaks(cs: seq<string>, i: nat)
    requires i < |cs| && AllLineBreaks(Flatten(cs))
    ensures AllLineBreaks(cs[i])
  {
    var s := Flatten(cs);
    assert s == cs[0] + Flatten(cs[1..]);
    assert forall k | 0 <= k < |cs[0]| :: cs[0][k] == s[k];
    if i > 0 {
      var t := Flatten(cs[1..]);
      assert forall k | 0 <= k < |t| :: t[k] == s[|cs[0]| + k];
      ChunkOfBreaks(cs[1..], i - 1);
    }
  }

  lemma {:induction false} BreaksAreBlank(c: string)
    requires AllLineBreaks(c)
    ensures Trim(c) == ""
  {
    assert AllWhitespace(c);
    TrimSandwich(c, "", "");
    assert c + "" + "" == c;
  }

  // ---------------------------------------------------------------------
  // Finding the written section again
  // ---------------------------------------------------------------------

  /** An appended section is found again, with the body it was given. */
  lemma {:induction false} AppendedBody(contents: string, header: string, body: string)
    requires GoodHeader(header) && NoBrackets(Chunks(body)) && SectionOf(Chunks(contents), header).None?
    ensures SectionRaw(AppendSection(contents, header, body), header) == Some(header + "\n" + (TrimBreaks(body) + "\n"))
  {
    hide Chunks, NoBrackets, TrimBreaks, Trim, EndedLine, AppendSection, Lower, SectionOf, Flatten;
    var pad := if contents == "" then "" else EndedLine(contents) + "\n";
    var block := header + "\n" + TrimBreaks(body) + "\n";
    AppendParts(contents, header, body, pad, block);
    SectionChunks(header, body);
    TrimmedBody(body);
    PaddedDoc(contents);
    ChunksConcat(pad, block);
    assert IsHeaderName(header);
    if contents != "" { SectionRawPadded(contents, header); }
    var bs := Chunks(block);
    HeadedSection(header, Chunks(TrimBreaks(body) + "\n"));
    SectionOfSplit(Chunks(pad), bs, header);
    SectionOfOne(bs, header, header);
    FlattenChunks(block);
    ConcatAssoc(header + "\n", TrimBreaks(body), "\n");
  }

  lemma {:induction false} HeadedSection(header: string, lines: seq<string>)
    requires GoodHeader(header) && NoBrackets(lines)
    ensures OneSection([header + "\n"] + lines, header) && IsBracket(header + "\n")
  {
    hide Trim, Lower;
    TrimPadded("", header, "\n");
    assert "" + header + "\n" == header + "\n";
    TrimOfTrimmed(header);
    var s := [header + "\n"] + lines;
    assert forall k | 1 <= k < |s| :: s[k] == lines[k - 1];
  }

  lemma {:induction false} BodyOfBlock(head: string, body: string)
    requires Terminated(head)
    ensures BodyText(head + body) == body
  {
    FirstLengthOfChunk(head, body);
  }

  lemma {:induction false} HeaderTerminated(header: string)
    requires OneLine(header)
    ensures Terminated(header + "\n")
  {
  }

  lemma {:induction false} ReplacedBody(contents: string, section: string, lines: seq<string>, body: string)
    requires SectionOf(Chunks(contents), ServicesHeader(section)) == Some(lines)
    requires EndsLine(body) && NoBrackets(Chunks(body))
    ensures ReferencedBody(ReplaceSectionBody(contents, ServicesHeader(section), Flatten(lines), body), section) == body
  {
    hide Chunks, NoBrackets, Trim, Lower, SectionOf, Flatten, BodyText, EndedLine, HeaderLine, ReplaceSection,
         ServicesHeader;
    var header := ServicesHeader(section);
    ServicesHeaderName(section);
    LocatedText(contents, header, lines);
    var hd := EndedLine(lines[0]);
    HeaderLineReads(lines[0]);
    ChunksCons(hd, body);
    JoinEnds(hd, body);
    SectionBody(Chunks(contents), header, lines);
    BlockOfHeader(hd, lines[0], header, Chunks(body));
    ReplaceKeepsOtherSections(contents, header, hd + body, header);
    BodyOfBlock(hd, body);
  }

  lemma {:induction false} BlockOfHeader(hd: string, c: string, header: string, lines: seq<string>)
    requires Matches(c, header) && Trim(hd) == Trim(c) && NoBrackets(lines)
    ensures OneSection([hd] + lines, header)
  {
    hide Trim, Lower;
    var s := [hd] + lines;
    assert forall k | 1 <= k < |s| :: s[k] == lines[k - 1];
  }

  // ---------------------------------------------------------------------
  // The second application
  // ---------------------------------------------------------------------

  /** The target is found again at the same place. */
  lemma {:induction false} SameTarget(before: seq<ProfileInfo>, after: seq<ProfileInfo>, profileName: string,
          url: Option<string>, section: Option<string>)
    requires var t := TargetIndex(before, profileName); t < |before| && Outcome(before, after, t, url, section)
    ensures TargetIndex(after, profileName) == TargetIndex(before, profileName)
  {
    hide Lower, TargetIndex;
    var t := TargetIndex(before, profileName);
    forall k | 0 <= k < t ensures !IsTarget(after[k], profileName) {
      assert OtherEntry(before[k], after[k], url, section);
    }
    assert EditedEntry(before[t], after[t], url);
    TargetUnique(after, profileName, t);
  }

  lemma {:induction false} TargetUnique(ps: seq<ProfileInfo>, profileName: string, t: nat)
    requires t < |ps| && IsTarget(ps[t], profileName) && forall k | 0 <= k < t :: !IsTarget(ps[k], profileName)
    ensures TargetIndex(ps, profileName) == t
  {
    hide IsTarget;
    if t > 0 { TargetUnique(ps[1..], profileName, t - 1); }
  }

  /** Nothing is left to do for a profile whose referenced body is finished. */
  lemma {:induction false} FinishedIsStable(contents: string, profileName: string, section: string,
          url: Option<string>)
    requires var ps := Parse(contents);
             var t := TargetIndex(ps, profileName);
             t < |ps| && ps[t].services == Some(section)
    requires StableUrl(url) && Finished(Chunks(EndedLine(ReferencedBody(contents, section))), url)
    ensures Apply(contents, profileName, url) == contents
  {
    hide Parse, TargetIndex, Chunks, Finished, EditBody, SectionRaw, BodyText, IsShared, HasProperties;
    FinishedBody(ReferencedBody(contents, section), url);
  }

  lemma {:induction false} UnlinkedIsStable(contents: string, profileName: string)
    requires var ps := Parse(contents);
             var t := TargetIndex(ps, profileName);
             t < |ps| && ps[t].services == None
    ensures Apply(contents, profileName, None) == contents
  {
    hide Parse, TargetIndex;
  }

  /** Rewriting the profile block leaves every other section as it is. */
  lemma {:induction false} RelinkKeepsOther(contents: string, profileName: string, t: nat, link: Option<string>,
          other: string)
    requires WellFormed(contents) && TargetAt(contents, profileName, t) && TidyTarget(contents, profileName)
    requires link.Some? ==> link.value != "" && GoodValue(link.value)
    requires IsHeaderName(other) && !EqIgnoreCase(ProfileHeader(profileName), other)
    ensures SectionRaw(Relink(contents, profileName, link), other) == SectionRaw(contents, other)
  {
    hide Chunks, Doc, Entries, Lower, Trim, ProfileHeader, WellFormed, Keys, HeaderKind, HeaderIndex, BodyLength,
         GoodValue, RelinkBlock, Relinked, TidyFrom, IsBlock, Relink, GoodHeader, ReplaceSection, IsHeaderName,
         GoodName;
    var cs := Chunks(contents);
    var c := LocateTarget(contents, profileName, t);
    TargetIndexIn(contents, profileName, t);
    TargetName(contents, profileName, t);
    var header := ProfileHeader(profileName);
    ProfileHeaderName(profileName);
    SectionAtIndex(cs, header);
    var section := cs[c.i..c.j];
    RelinkedBlock(contents, header, section, link);
    RelinkIsReplace(contents, profileName, link, section);
    ReplaceKeepsOtherSections(contents, header, RelinkBlock(contents, header, link), other);
  }

  /** The section a profile was linked to is found again, with its body. */
  lemma {:induction false} LinkedBody(contents: string, profileName: string, t: nat, body: string)
    requires WellFormed(contents) && TargetAt(contents, profileName, t) && TidyTarget(contents, profileName)
    requires NoBrackets(Chunks(body))
    ensures var m := FreshName(contents, Parse(contents), profileName);
            ReferencedBody(LinkNewSection(contents, Parse(contents), profileName, body), m) == TrimBreaks(body) + "\n"
  {
    hide Chunks, Lower, ProfileHeader, ServicesHeader, WellFormed, TargetAt, TidyTarget, GoodValue, GoodName,
         GoodHeader, Relink, AppendSection, NoBrackets, TrimBreaks, FreshName, IsTaken, SectionOf, Parse, HeaderKind,
         BodyText, Flatten, OneLine, IsHeaderName;
    var profiles := Parse(contents);
    var m := FreshName(contents, profiles, profileName);
    TargetName(contents, profileName, t);
    FreshNameGood(contents, profiles, profileName);
    NameNotEmpty(m);
    ServicesHeaderKind(m);
    NotTakenAbsent(contents, profiles, m);
    ServicesHeaderName(m);
    ProfileNotServices(profileName, m);
    RelinkKeepsOther(contents, profileName, t, Some(m), ServicesHeader(m));
    var linked := Relink(contents, profileName, Some(m));
    AppendedBody(linked, ServicesHeader(m), body);
    HeaderOneLine(ServicesHeader(m));
    HeaderTerminated(ServicesHeader(m));
    BodyOfBlock(ServicesHeader(m) + "\n", TrimBreaks(body) + "\n");
  }

  lemma {:induction false} HeaderOneLine(header: string)
    requires GoodHeader(header)
    ensures OneLine(header)
  {
  }

  lemma {:induction false} LinkAgain(contents: string, profileName: string, t: nat, start: string,
          url: Option<string>)
    requires WellFormed(contents) && TargetAt(contents, profileName, t) && TidyTarget(contents, profileName)
    requires t == TargetIndex(Parse(contents), profileName) < |Parse(contents)|
    requires NoBrackets(Chunks(start)) && StableUrl(url) && EditBody(start, url) != start && HasProperties(EditBody(start, url))
    requires Suffices(Chunks(EndedLine(start)), url)
    ensures var after := LinkNewSection(contents, Parse(contents), profileName, EditBody(start, url));
            Apply(after, profileName, url) == after
  {
    hide Chunks, WellFormed, TargetAt, TidyTarget, NoBrackets, TrimBreaks, FreshName, Parse, Finished, Suffices,
         EditBody, HasProperties, LinkNewSection, UrlOf, Endpoints, Outcome, TargetIndex, ReferencedBody, Of,
         ReportedAfter, Left;
    var edited, reported := EditBody(start, url), ReportedAfter(start, url);
    EditBodyReads(start, url, "");
    EditedDone(start, url);
    PropertiesNotBlank(edited);
    LinkOutcome(contents, profileName, t, edited, reported);
    LinkedBody(contents, profileName, t, edited);
    var after := LinkNewSection(contents, Parse(contents), profileName, edited);
    SameTarget(Parse(contents), Parse(after), profileName, reported, None);
    OutcomeUrl(Parse(contents), Parse(after), t, reported, None);
    FinishedIsStable(after, profileName, FreshName(contents, Parse(contents), profileName), url);
  }

  lemma {:induction false} EditSectionAgain(contents: string, profileName: string, t: nat, section: string,
          url: Option<string>)
    requires WellFormed(contents) && TargetAt(contents, profileName, t) && TidyTarget(contents, profileName)
    requires t == TargetIndex(Parse(contents), profileName) < |Parse(contents)|
    requires Parse(contents)[t].services == Some(section) && StableUrl(url)
    requires Suffices(Chunks(EndedLine(ReferencedBody(contents, section))), url)
    ensures var after := EditSection(contents, Parse(contents), profileName, section, url);
            after != contents ==> Apply(after, profileName, url) == after
  {
    hide Chunks, Doc, Entries, Lower, ServicesHeader, NoBrackets, Endpoints, UrlOf, EndpointsOf, EditBody,
         ReportedAfter, Suffices, EndsLine, HasProperties, SectionOf, BodyText, WellFormed, TidyTarget, Outcome,
         IsShared, Relink, RemoveSection, ReplaceSectionBody, AppendSection, LinkNewSection, GoodName, TargetAt,
         Flatten, Trim, Parse, TargetIndex, Finished, TrimBreaks, Apply;
    TargetOfParse(contents, profileName);
    ReferencedReads(contents, section, url);
    ReferenceGood(contents, profileName, t);
    var profiles := Parse(contents);
    var body := ReferencedBody(contents, section);
    var edited, reported := EditBody(body, url), ReportedAfter(body, url);
    var located := SectionOf(Chunks(contents), ServicesHeader(section));
    var after := EditSection(contents, profiles, profileName, section, url);
    ReferencedPlain(contents, section);
    if edited != body {
      EditedDone(body, url);
      if IsShared(profiles, profileName, section) {
        if HasProperties(edited) {
          LinkAgain(contents, profileName, t, body, url);
        } else {
          RemovalOnly(url, reported, body);
          UnlinkOutcome(contents, profileName, t);
          AgainUnlinked(contents, after, profileName, t, None);
        }
      } else if !HasProperties(edited) {
        RemovalOnly(url, reported, body);
        if located.Some? {
          RemoveOutcome(contents, profileName, t, section, located.value);
          AgainUnlinked(contents, after, profileName, t, Some(section));
        } else {
          EmptyEdit(url);
        }
      } else if located.Some? {
        ReplaceOutcome(contents, profileName, t, section, located.value, edited, reported);
        ReplacedBody(contents, section, located.value, edited);
        AgainFinished(contents, after, profileName, t, section, url, reported);
      } else {
        AppendAgain(contents, profileName, t, section, edited, url);
      }
    }
  }

  lemma {:induction false} RemovalOnly(url: Option<string>, reported: Option<string>, body: string)
    requires reported == ReportedAfter(body, url) && !reported.Some?
    ensures url.None?
  {
    hide Left, UrlOf;
  }

  /** A second edit finds the section the first one appended, blank name or not. */
  lemma {:induction false} AppendAgain(contents: string, profileName: string, t: nat, section: string, edited: string,
          url: Option<string>)
    requires WellFormed(contents) && TargetAt(contents, profileName, t) && StableUrl(url)
    requires t == TargetIndex(Parse(contents), profileName) < |Parse(contents)| && Parse(contents)[t].services == Some(section)
    requires !IsShared(Parse(contents), profileName, section) && SectionOf(Chunks(contents), ServicesHeader(section)).None?
    requires NoBrackets(Chunks(edited)) && HasProperties(edited)
    requires TrimBreaks(edited) != "" ==> Finished(Chunks(EndedLine(TrimBreaks(edited) + "\n")), url)
    ensures var after := AppendSection(contents, ServicesHeader(section), edited);
            Apply(after, profileName, url) == after
  {
    hide Chunks, Doc, Entries, ServicesHeader, NoBrackets, Endpoints, UrlOf, HasProperties, SectionOf, WellFormed,
         Outcome, IsShared, AppendSection, GoodName, TargetAt, Parse, TargetIndex, Finished, TrimBreaks, Apply,
         ReferencedBody, EndedLine, OneLine, Trimmed;
    TargetOfParse(contents, profileName);
    ReferenceGood(contents, profileName, t);
    ReferenceOneLine(section);
    PropertiesNotBlank(edited);
    AppendedReference(contents, section, edited);
    var after, reported := AppendSection(contents, ServicesHeader(section), edited), UrlOf(Endpoints(Chunks(edited), None));
    if section == "" {
      BlankAppended(contents, edited);
      FinishedIsStable(after, profileName, section, url);
    } else {
      AppendOutcome(contents, profileName, t, section, edited, reported);
      AgainFinished(contents, after, profileName, t, section, url, reported);
    }
  }

  lemma {:induction false} ReferenceOneLine(section: string)
    requires section != "" ==> GoodName(section)
    ensures OneLine(section)
  {
  }

  lemma {:induction false} ReferencedPlain(contents: string, section: string)
    requires WellFormed(contents)
    ensures NoBrackets(Chunks(ReferencedBody(contents, section)))
  {
    hide Chunks, Doc, Lower, ServicesHeader, NoBrackets, SectionOf, BodyText, IsServicesFor, HeaderIndex, BodyLength,
         Flatten, WellFormed, Keys, Endpoints, EndpointsOf, Trim;
    match SectionOf(Chunks(contents), ServicesHeader(section)) {
      case None =>
        EmptyBody();
      case Some(lines) =>
        var c := LocateServices(contents, section, lines);
        LocatedText(contents, ServicesHeader(section), lines);
    }
  }

  lemma {:induction false} AppendedReference(contents: string, section: string, body: string)
    requires OneLine(section) && NoBrackets(Chunks(body)) && SectionOf(Chunks(contents), ServicesHeader(section)).None?
    ensures ReferencedBody(AppendSection(contents, ServicesHeader(section), body), section) == TrimBreaks(body) + "\n"
  {
    hide Chunks, ServicesHeader, NoBrackets, SectionOf, AppendSection, TrimBreaks, GoodHeader, BodyText, OneLine;
    ServicesHeaderGood(section);
    AppendedBody(contents, ServicesHeader(section), body);
    HeaderOneLine(ServicesHeader(section));
    HeaderTerminated(ServicesHeader(section));
    BodyOfBlock(ServicesHeader(section) + "\n", TrimBreaks(body) + "\n");
  }

  lemma {:induction false} ServicesHeaderGood(section: string)
    requires OneLine(section)
    ensures GoodHeader(ServicesHeader(section))
  {
  }

  lemma {:induction false} AgainUnlinked(contents: string, after: string, profileName: string, t: nat,
          section: Option<string>)
    requires t == TargetIndex(Parse(contents), profileName) < |Parse(contents)|
    requires Outcome(Parse(contents), Parse(after), t, None, section) && Parse(after)[t].services == None
    ensures Apply(after, profileName, None) == after
  {
    hide Parse, TargetIndex, Outcome, Apply;
    SameTarget(Parse(contents), Parse(after), profileName, None, section);
    OutcomeUrl(Parse(contents), Parse(after), t, None, section);
    UnlinkedIsStable(after, profileName);
  }

  lemma {:induction false} AgainFinished(contents: string, after: string, profileName: string, t: nat,
          section: string, url: Option<string>, reported: Option<string>)
    requires t == TargetIndex(Parse(contents), profileName) < |Parse(contents)| && StableUrl(url)
    requires Outcome(Parse(contents), Parse(after), t, reported, Some(section)) && Parse(after)[t].services == Some(section)
    requires Finished(Chunks(EndedLine(ReferencedBody(after, section))), url)
    ensures Apply(after, profileName, url) == after
  {
    hide Parse, TargetIndex, Outcome, Apply, Finished, Chunks, ReferencedBody;
    SameTarget(Parse(contents), Parse(after), profileName, reported, Some(section));
    OutcomeUrl(Parse(contents), Parse(after), t, reported, Some(section));
    FinishedIsStable(after, profileName, section, url);
  }

  /** One edit is enough for the section the profile refers to. */
  predicate SufficesIn(contents: string, profileName: string, url: Option<string>) {
    var profiles := Parse(contents);
    var t := TargetIndex(profiles, profileName);
    t < |profiles| && profiles[t].services.Some? ==>
      Suffices(Chunks(EndedLine(ReferencedBody(contents, profiles[t].services.value))), url)
  }

  /** Where one edit is enough, a second one changes no byte. */
  lemma {:induction false} ApplyAgain(contents: string, profileName: string, url: Option<string>)
    requires Editable(contents, profileName, url) && StableUrl(url) && SufficesIn(contents, profileName, url)
    ensures var once := Apply(contents, profileName, url);
            Apply(once, profileName, url) == once
  {
    hide Chunks, Doc, Entries, NoBrackets, EditBody, Suffices, WellFormed, TidyTarget, EditSection, LinkNewSection,
         TargetIndex, Parse, OneLine, HasProperties, TargetAt, ReferencedBody, Endpoints, UrlOf;
    var before := Parse(contents);
    var t := TargetIndex(before, profileName);
    TargetOfParse(contents, profileName);
    var once := Apply(contents, profileName, url);
    if t < |before| && once != contents {
      if before[t].services.Some? {
        EditSectionAgain(contents, profileName, t, before[t].services.value, url);
      } else if url.Some? {
        EmptyBody();
        FreshBody(url.value);
        ReportedSome(url);
        EndpointIsProperty(EditBody("", url));
        NotEmptyBody(EditBody("", url));
        SetSuffices(Chunks(EndedLine("")), url);
        LinkAgain(contents, profileName, t, "", url);
      }
    }
  }

  lemma {:induction false} SetSuffices(lines: seq<string>, url: Option<string>)
    requires url.Some?
    ensures Suffices(lines, url)
  {
  }

  lemma {:induction false} NotEmptyBody(body: string)
    requires HasProperties(body)
    ensures body != ""
  {
    EmptyBody();
  }
}

/** When applying an endpoint edit twice is applying it once, byte for byte. */
module EndpointTwice {
  import opened Text
  import opened Sections
  import opened AwsParser
  import opened MergeWriter
  import opened ProfileWriter
  import opened ServicesEditor
  import opened ServicesRemoval
  import opened ServicesTwice
  import opened EndpointEditor
  import opened EndpointOps
  import opened EndpointMeaning
  import opened EndpointTheorems
  import opened EndpointIdempotence
  import opened EndpointRoundTrip
  import opened HeaderCounts

  // ---------------------------------------------------------------------
  // An edit that finds something to do changes the file
  // ---------------------------------------------------------------------

  lemma {:induction false} RemovedChanges(contents: string, profileName: string, section: string)
    requires GoodHeader(ProfileHeader(profileName)) && SectionOf(Chunks(contents), ServicesHeader(section)).Some?
    ensures Relink(RemoveSection(contents, ServicesHeader(section)), profileName, None) != contents
  {
    hide Chunks, Count, Lower, SectionOf, ProfileHeader, ServicesHeader, GoodHeader, Relink, RemoveSection,
         EqIgnoreCase;
    var header := ServicesHeader(section);
    ServicesHeaderName(section);
    var removed := RemoveSection(contents, header);
    CountRemoved(contents, header, header);
    CountRelinked(removed, profileName, None, header);
    ProfileNotServices(profileName, section);
    SameCase(header);
  }

  lemma {:induction false} SameCase(h: string)
    ensures EqIgnoreCase(h, h)
  {
  }

  lemma {:induction false} EditChanges(contents: string, profileName: string, section: string)
    requires GoodHeader(ProfileHeader(profileName)) && SectionOf(Chunks(contents), ServicesHeader(section)).Some?
    requires !IsShared(Parse(contents), profileName, section) && NoBrackets(Chunks(ReferencedBody(contents, section)))
    requires EditBody(ReferencedBody(contents, section), None) != ReferencedBody(contents, section)
    ensures EditSection(contents, Parse(contents), profileName, section, None) != contents
  {
    hide Chunks, SectionOf, ProfileHeader, ServicesHeader, GoodHeader, Relink, RemoveSection, Parse, IsShared,
         EditBody, HasProperties, ReplaceSectionBody, AppendSection, LinkNewSection, NoBrackets, Endpoints, UrlOf,
         EndsLine, BodyText, Flatten, ReportedAfter, Left;
    var body := ReferencedBody(contents, section);
    var edited := EditBody(body, None);
    EditBodyReads(body, None, "");
    if HasProperties(edited) {
      ReplacedBody(contents, section, SectionOf(Chunks(contents), ServicesHeader(section)).value, edited);
    } else {
      RemovedChanges(contents, profileName, section);
    }
  }

  // ---------------------------------------------------------------------
  // A second removal that changes nothing
  // ---------------------------------------------------------------------

  lemma {:induction false} BodyReturned(body: string)
    requires NoBrackets(Chunks(body))
    ensures EditBody(body, None) == body <==> AllNothingToDo(Chunks(EndedLine(body)))
  {
    hide Chunks, NoBrackets, EditLines, Flatten, AllBodyLines, AllNothingToDo, EditBody;
    var lines := Chunks(EndedLine(body));
    EndedShape(body);
    ChunksTerminated(EndedLine(body));
    BodyLinesForm(lines);
    EditLinesBody(lines, None);
    BodyLinesForm(EditLines(lines, None));
    ListOfTerminated(EditLines(lines, None));
    ChunksOfFlatten(EditLines(lines, None));
    ReturnedBody(body);
  }

  /** A body without properties has no sub-sections. */
  lemma {:induction false} NoPropertiesNothing(body: string)
    requires !HasProperties(body) && EndsLine(body)
    ensures AllNothingToDo(Chunks(EndedLine(body)))
  {
    hide Chunks, NothingToDo, Opens;
    forall k, service | 0 <= k < |Chunks(body)| ensures !Opens(Chunks(body)[k], service) {
      OpenerIsProperty(body, k, service);
    }
    NoOpenerNothing(Chunks(body), A);
    NoOpenerNothing(Chunks(body), B);
    NoOpenerNothing(Chunks(body), C);
  }

  lemma {:induction false} OpenerIsProperty(body: string, k: nat, service: string)
    requires !HasProperties(body) && k < |Chunks(body)|
    ensures !Opens(Chunks(body)[k], service)
  {
    hide Chunks, Trim, KeyValue;
    TrimLine(Chunks(body)[k]);
    assert LineKeyValue(Lines(body)[k]).None?;
  }

  lemma {:induction false} NoOpenerNothing(lines: seq<string>, service: string)
    requires NoOpener(lines, service)
    ensures NothingToDo(lines, service)
  {
    hide Opens;
    if lines != [] { NoOpenerNothing(lines[1..], service); }
  }

  /** Sharing does not depend on the entry that is edited. */
  lemma {:induction false} SharedKept(before: seq<ProfileInfo>, after: seq<ProfileInfo>, t: nat, url: Option<string>,
          place: Option<string>, profileName: string, section: string)
    requires Outcome(before, after, t, url, place) && IsTarget(before[t], profileName)
    ensures IsShared(after, profileName, section) ==> IsShared(before, profileName, section)
  {
    hide Lower, Follows;
    assert EditedEntry(before[t], after[t], url);
    if i :| 0 <= i < |after| && !after[i].isSsoSession && !EqIgnoreCase(after[i].name, profileName) && RefersTo(after[i], section) {
      assert i != t;
      assert OtherEntry(before[i], after[i], url, place);
    }
  }

  /** What a second removal finds, for a target that refers to its own section. */
  lemma {:induction false} SecondFinds(once: string, profileName: string, t: nat, section: string)
    requires t == TargetIndex(Parse(once), profileName) < |Parse(once)| && Parse(once)[t].services == Some(section)
    requires GoodHeader(ProfileHeader(profileName)) && SectionOf(Chunks(once), ServicesHeader(section)).Some?
    requires !IsShared(Parse(once), profileName, section) && NoBrackets(Chunks(ReferencedBody(once, section)))
    requires Apply(once, profileName, None) == once
    ensures AllNothingToDo(Chunks(EndedLine(ReferencedBody(once, section))))
  {
    hide Parse, TargetIndex, Chunks, SectionOf, ReferencedBody, EditBody, EditSection, IsShared, NoBrackets,
         AllNothingToDo, ProfileHeader, GoodHeader, ServicesHeader;
    BodyReturned(ReferencedBody(once, section));
    if EditBody(ReferencedBody(once, section), None) != ReferencedBody(once, section) {
      EditChanges(once, profileName, section);
    }
  }

  lemma {:induction false} FoundSection(contents: string, section: string)
    requires ReferencedBody(contents, section) != ""
    ensures SectionOf(Chunks(contents), ServicesHeader(section)).Some?
  {
    hide Chunks, SectionOf, ServicesHeader;
  }

  /** If a second removal changes nothing, one was enough. */
  lemma {:induction false} SecondSuffices(contents: string, profileName: string, t: nat, section: string)
    requires WellFormed(contents) && TargetAt(contents, profileName, t) && TidyTarget(contents, profileName)
    requires t == TargetIndex(Parse(contents), profileName) < |Parse(contents)| && Parse(contents)[t].services == Some(section)
    requires var once := EditSection(contents, Parse(contents), profileName, section, None);
             Apply(once, profileName, None) == once
    ensures AllSettle(Chunks(EndedLine(ReferencedBody(contents, section))))
  {
    hide Chunks, Doc, Entries, Lower, ServicesHeader, NoBrackets, Endpoints, UrlOf, EndpointsOf, EditBody,
         ReportedAfter, EndsLine, HasProperties, SectionOf, BodyText, WellFormed, TidyTarget, Outcome, IsShared,
         Relink, RemoveSection, ReplaceSectionBody, AppendSection, LinkNewSection, TargetAt, Flatten, Trim, Parse,
         TargetIndex, TrimBreaks, Apply, AllSettle, AllNothingToDo, EditLines, ProfileHeader, GoodHeader, GoodName,
         HeaderKind, EndedLine, AllTerminated;
    TargetOfParse(contents, profileName);
    TargetName(contents, profileName, t);
    ReferencedReads(contents, section, None);
    ReferencedPlain(contents, section);
    var profiles := Parse(contents);
    var body := ReferencedBody(contents, section);
    var lines := Chunks(EndedLine(body));
    var edited, reported := EditBody(body, None), ReportedAfter(body, None);
    var located := SectionOf(Chunks(contents), ServicesHeader(section));
    var once := EditSection(contents, profiles, profileName, section, None);
    if edited == body {
      BodyReturned(body);
      NothingSettles(lines);
    } else {
      EditedForm(body, None);
      RemoveAllSettles(lines);
      assert AllNothingToDo(Chunks(EndedLine(edited))) <==> AllSettle(lines);
      if !HasProperties(edited) {
        NoPropertiesNothing(edited);
      } else if IsShared(profiles, profileName, section) {
        LinkedFinds(contents, profileName, t, edited, reported);
      } else {
        LocatedHere(contents, section);
        ReplacedFinds(contents, profileName, t, section, located.value, edited, reported);
      }
    }
  }

  /** Nothing changes in the body of a section that is not there. */
  lemma {:induction false} LocatedHere(contents: string, section: string)
    requires EditBody(ReferencedBody(contents, section), None) != ReferencedBody(contents, section)
    ensures SectionOf(Chunks(contents), ServicesHeader(section)).Some?
  {
    hide Chunks, SectionOf, ServicesHeader, EditBody;
    EmptyEdit(None);
  }

  lemma {:induction false} LinkedFinds(contents: string, profileName: string, t: nat, edited: string,
          url: Option<string>)
    requires WellFormed(contents) && TargetAt(contents, profileName, t) && TidyTarget(contents, profileName)
    requires t == TargetIndex(Parse(contents), profileName) < |Parse(contents)|
    requires NoBrackets(Chunks(edited)) && HasProperties(edited) && UrlOf(Endpoints(Chunks(edited), None)) == url
    requires var once := LinkNewSection(contents, Parse(contents), profileName, edited);
             Apply(once, profileName, None) == once
    ensures AllNothingToDo(Chunks(EndedLine(edited)))
  {
    hide Chunks, Lower, ServicesHeader, NoBrackets, Endpoints, UrlOf, HasProperties, SectionOf, WellFormed,
         TidyTarget, Outcome, IsShared, LinkNewSection, TargetAt, Parse, TargetIndex, TrimBreaks, Apply,
         AllNothingToDo, ProfileHeader, GoodHeader, GoodName, HeaderKind, EndedLine, FreshName, IsTaken,
         ReferencedBody, GoodValue;
    var m, once := FreshName(contents, Parse(contents), profileName), LinkNewSection(contents, Parse(contents), profileName, edited);
    TargetName(contents, profileName, t);
    FreshNameGood(contents, Parse(contents), profileName);
    LinkOutcome(contents, profileName, t, edited, url);
    LinkedBody(contents, profileName, t, edited);
    SameTarget(Parse(contents), Parse(once), profileName, url, None);
    OutcomeUrl(Parse(contents), Parse(once), t, url, None);
    FreshUnshared(contents, Parse(once), profileName, t, m, url);
    NotEmptyText(edited);
    FoundSection(once, m);
    TrimmedBody(edited);
    SecondFinds(once, profileName, t, m);
    TrimmedNothing(edited);
  }

  lemma {:induction false} NotEmptyText(body: string)
    ensures TrimBreaks(body) + "\n" != ""
  {
  }

  lemma {:induction false} ReplacedFinds(contents: string, profileName: string, t: nat, section: string,
          lines: seq<string>, edited: string, url: Option<string>)
    requires WellFormed(contents) && TargetAt(contents, profileName, t)
    requires t == TargetIndex(Parse(contents), profileName) < |Parse(contents)| && Parse(contents)[t].services == Some(section)
    requires !IsShared(Parse(contents), profileName, section)
    requires SectionOf(Chunks(contents), ServicesHeader(section)) == Some(lines)
    requires EndsLine(edited) && NoBrackets(Chunks(edited)) && HasProperties(edited) && UrlOf(Endpoints(Chunks(edited), None)) == url
    requires var once := ReplaceSectionBody(contents, ServicesHeader(section), Flatten(lines), edited);
             Apply(once, profileName, None) == once
    ensures AllNothingToDo(Chunks(EndedLine(edited)))
  {
    hide Chunks, Doc, Entries, Lower, ServicesHeader, NoBrackets, Endpoints, UrlOf, HasProperties, SectionOf,
         WellFormed, Outcome, IsShared, ReplaceSectionBody, TargetAt, Parse, TargetIndex, Apply, AllNothingToDo,
         ProfileHeader, GoodHeader, GoodName, HeaderKind, EndedLine, ReferencedBody, Flatten, EndsLine;
    var once := ReplaceSectionBody(contents, ServicesHeader(section), Flatten(lines), edited);
    TargetOfParse(contents, profileName);
    TargetName(contents, profileName, t);
    ReplaceOutcome(contents, profileName, t, section, lines, edited, url);
    ReplacedBody(contents, section, lines, edited);
    SameTarget(Parse(contents), Parse(once), profileName, url, Some(section));
    OutcomeUrl(Parse(contents), Parse(once), t, url, Some(section));
    SharedKept(Parse(contents), Parse(once), t, url, Some(section), profileName, section);
    NotEmptyBody(edited);
    FoundSection(once, section);
    SecondFinds(once, profileName, t, section);
  }

  /** Endpoint editing is idempotent byte for byte: always for setting, and for
      removing exactly if one removal is enough for the section referred to. */
  lemma {:induction false} ApplyTwice(contents: string, profileName: string, url: Option<string>)
    requires Editable(contents, profileName, url) && StableUrl(url)
    ensures var once := Apply(contents, profileName, url);
            Apply(once, profileName, url) == once <==> SufficesIn(contents, profileName, url)
  {
    hide Chunks, WellFormed, TidyTarget, EditSection, LinkNewSection, TargetIndex, Parse, OneLine, TargetAt,
         ReferencedBody, EditBody, AllSettle;
    var once := Apply(contents, profileName, url);
    var before := Parse(contents);
    var t := TargetIndex(before, profileName);
    TargetOfParse(contents, profileName);
    if SufficesIn(contents, profileName, url) {
      ApplyAgain(contents, profileName, url);
    }
    if Apply(once, profileName, url) == once && url.None? && t < |before| && before[t].services.Some? {
      SecondSuffices(contents, profileName, t, before[t].services.value);
    }
  }
}

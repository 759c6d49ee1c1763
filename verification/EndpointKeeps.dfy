/** What an endpoint edit leaves alone: the other services of the section it edits, the
    other lines of that section, and the text of every other section. */
module EndpointKeeps {
  import opened Text
  import opened Sections
  import opened AwsParser
  import opened DocEdits
  import opened MergeWriter
  import opened ProfileWriter
  import opened ServicesEditor
  import opened ServicesRemoval
  import opened ServicesOthers
  import opened ServicesKept
  import opened EndpointEditor
  import opened EndpointOps
  import opened EndpointMeaning
  import opened EndpointBlank
  import opened EndpointTheorems
  import opened EndpointIdempotence
  import opened EndpointRoundTrip
  import opened SectionTexts

  // ---------------------------------------------------------------------
  // The section referred to
  // ---------------------------------------------------------------------

  /** Every endpoint the parser reads from the section referred to. */
  function EndpointsIn(contents: string, services: Option<string>): seq<Endpoint> {
    match services case None => [] case Some(section) => EndpointsOf(Doc(Chunks(contents)), Lower(section))
  }

  /** The other lines of the section referred to. */
  function LinesIn(contents: string, services: Option<string>): seq<(string, bool)> {
    match services case None => [] case Some(section) => OtherLines(Chunks(ReferencedBody(contents, section)))
  }

  lemma {:induction false} ReferencedEndpoints(contents: string, section: string)
    requires WellFormed(contents)
    ensures EndpointsIn(contents, Some(section)) == Endpoints(Chunks(ReferencedBody(contents, section)), None)
  {
    hide Chunks, Doc, Lower, ServicesHeader, NoBrackets, Endpoints, EndpointsOf, EndsLine, SectionOf, BodyText,
         IsServicesFor, Trim, HeaderIndex, BodyLength, Flatten, WellFormed, Keys;
    match SectionOf(Chunks(contents), ServicesHeader(section)) {
      case None =>
        AbsentNoEndpoints(contents, section);
        EmptyBody();
      case Some(lines) =>
        var c := LocateServices(contents, section, lines);
        LocatedText(contents, ServicesHeader(section), lines);
        var cs := Chunks(contents);
        EndpointsOfThree(Doc(cs[..c.i]), SectionFrom(cs[c.i], cs[c.i + 1..c.j]), Doc(cs[c.j..]), Lower(section));
        var es := Endpoints(Chunks(ReferencedBody(contents, section)), None);
        assert [] + es + [] == es;
    }
  }

  /** A section that was written with `body` holds what it says. */
  ghost predicate Holds(contents: string, services: Option<string>, body: string) {
    EndpointsIn(contents, services) == Endpoints(Chunks(body), None) && LinesIn(contents, services) == OtherLines(Chunks(body))
  }

  lemma {:induction false} HoldsBody(contents: string, section: string, body: string)
    requires WellFormed(contents) && NoBrackets(Chunks(body))
    requires ReferencedBody(contents, section) == body || ReferencedBody(contents, section) == TrimBreaks(body) + "\n"
    ensures Holds(contents, Some(section), body)
  {
    hide Chunks, WellFormed, NoBrackets, TrimBreaks, Endpoints, OtherLines, ReferencedBody, Lower, EndpointsOf, Doc;
    ReferencedEndpoints(contents, section);
    TrimmedBody(body);
    TrimBreaksKept(body);
    AddBreakKept(TrimBreaks(body), '\n');
  }

  lemma {:induction false} LinkHolds(contents: string, profileName: string, t: nat, body: string)
    requires WellFormed(contents) && TargetAt(contents, profileName, t) && TidyTarget(contents, profileName)
    requires NoBrackets(Chunks(body))
    ensures var after := LinkNewSection(contents, Parse(contents), profileName, body);
            t < |Parse(after)| && Parse(after)[t].services.Some? && Holds(after, Parse(after)[t].services, body)
  {
    hide Chunks, WellFormed, TargetAt, TidyTarget, NoBrackets, Parse, LinkNewSection, Holds, FreshName, Endpoints,
         UrlOf, TrimBreaks, Outcome;
    var after := LinkNewSection(contents, Parse(contents), profileName, body);
    var url := UrlOf(Endpoints(Chunks(body), None));
    LinkOutcome(contents, profileName, t, body, url);
    OutcomeUrl(Parse(contents), Parse(after), t, url, None);
    LinkedBody(contents, profileName, t, body);
    LinkKeepsForm(contents, profileName, t, body);
    HoldsBody(after, FreshName(contents, Parse(contents), profileName), body);
  }

  lemma {:induction false} ReplaceHolds(contents: string, profileName: string, t: nat, section: string,
          lines: seq<string>,
          body: string)
    requires WellFormed(contents) && TargetAt(contents, profileName, t)
    requires Entries(Doc(Chunks(contents)))[t].services == Some(section) && !IsShared(Parse(contents), profileName, section)
    requires SectionOf(Chunks(contents), ServicesHeader(section)) == Some(lines) && EndsLine(body) && NoBrackets(Chunks(body))
    ensures var after := ReplaceSectionBody(contents, ServicesHeader(section), Flatten(lines), body);
            t < |Parse(after)| && Parse(after)[t].services.Some? && Holds(after, Parse(after)[t].services, body)
  {
    hide Chunks, Doc, Entries, WellFormed, NoBrackets, Parse, Holds, Endpoints, UrlOf, Outcome, IsShared, SectionOf,
         ServicesHeader, Flatten, EndsLine, ReplaceSectionBody, TargetAt;
    TargetIndexIn(contents, profileName, t);
    var after := ReplaceSectionBody(contents, ServicesHeader(section), Flatten(lines), body);
    var url := UrlOf(Endpoints(Chunks(body), None));
    ReplaceOutcome(contents, profileName, t, section, lines, body, url);
    OutcomeUrl(Parse(contents), Parse(after), t, url, Some(section));
    ReplacedBody(contents, section, lines, body);
    ReplaceKeepsForm(contents, section, lines, body);
    HoldsBody(after, section, body);
  }

  lemma {:induction false} AppendHolds(contents: string, profileName: string, t: nat, section: string, body: string)
    requires WellFormed(contents) && TargetAt(contents, profileName, t) && GoodName(section)
    requires Entries(Doc(Chunks(contents)))[t].services == Some(section) && !IsShared(Parse(contents), profileName, section)
    requires SectionOf(Chunks(contents), ServicesHeader(section)).None? && NoBrackets(Chunks(body))
    ensures var after := AppendSection(contents, ServicesHeader(section), body);
            t < |Parse(after)| && Parse(after)[t].services.Some? && Holds(after, Parse(after)[t].services, body)
  {
    hide Chunks, Doc, Entries, WellFormed, NoBrackets, Parse, Holds, Endpoints, UrlOf, Outcome, IsShared, SectionOf,
         ServicesHeader, AppendSection, TargetAt, GoodName, TrimBreaks, OneLine;
    TargetIndexIn(contents, profileName, t);
    var after := AppendSection(contents, ServicesHeader(section), body);
    var url := UrlOf(Endpoints(Chunks(body), None));
    AppendOutcome(contents, profileName, t, section, body, url);
    OutcomeUrl(Parse(contents), Parse(after), t, url, Some(section));
    ReferenceOneLine(section);
    AppendedReference(contents, section, body);
    AppendKeepsForm(contents, section, body);
    HoldsBody(after, section, body);
  }

  /** A body with an endpoint has properties. */
  lemma {:induction false} EndpointsHaveProperties(body: string)
    requires Endpoints(Chunks(body), None) != []
    ensures HasProperties(body)
  {
    hide Chunks, Endpoints, Trim, KeyValue;
    var k := EndpointLineOf(Chunks(body), None);
    TrimLine(Chunks(body)[k]);
    assert LineKeyValue(Lines(body)[k]).Some?;
  }

  /** The section the profile refers to afterwards holds the edited body; or the profile
      refers to none, and the edited body has no properties. */
  lemma {:induction false} EditHolds(contents: string, profileName: string, t: nat, section: string,
          url: Option<string>)
    requires WellFormed(contents) && TargetAt(contents, profileName, t) && TidyTarget(contents, profileName)
    requires Entries(Doc(Chunks(contents)))[t].services == Some(section) && t < |Parse(contents)|
    requires (url.Some? ==> OneLine(url.value)) && !IsLost(Parse(contents), profileName, section, url)
    ensures var after := EditSection(contents, Parse(contents), profileName, section, url);
            var edited := EditBody(ReferencedBody(contents, section), url);
            && t < |Parse(after)|
            && if Parse(after)[t].services.Some? then Holds(after, Parse(after)[t].services, edited) else !HasProperties(edited)
  {
    hide Chunks, Doc, Entries, Lower, ServicesHeader, NoBrackets, Endpoints, UrlOf, EndpointsOf, EditBody,
         ReportedAfter, EndsLine, HasProperties, SectionOf, BodyText, WellFormed, TidyTarget, Outcome, IsShared,
         Relink, RemoveSection, ReplaceSectionBody, AppendSection, LinkNewSection, GoodName, TargetAt, Flatten, Trim,
         Parse, Holds, TrimBreaks;
    TargetIndexIn(contents, profileName, t);
    ReferencedReads(contents, section, url);
    ReferenceGood(contents, profileName, t);
    ReferencedPlain(contents, section);
    var profiles, after := Parse(contents), EditSection(contents, Parse(contents), profileName, section, url);
    var body := ReferencedBody(contents, section);
    var edited := EditBody(body, url);
    var located := SectionOf(Chunks(contents), ServicesHeader(section));
    if edited == body {
      ParseServices(contents, t);
      HoldsBody(contents, section, body);
    } else if IsShared(profiles, profileName, section) {
      if HasProperties(edited) {
        LinkHolds(contents, profileName, t, edited);
      } else {
        UnlinkOutcome(contents, profileName, t);
        OutcomeUrl(profiles, Parse(after), t, None, None);
      }
    } else if !HasProperties(edited) {
      if located.Some? {
        RemoveOutcome(contents, profileName, t, section, located.value);
        OutcomeUrl(profiles, Parse(after), t, None, Some(section));
      } else {
        NothingRemoved(url, ReportedAfter("", url), "");
      }
    } else if located.Some? {
      ReplaceHolds(contents, profileName, t, section, located.value, edited);
    } else {
      NothingRemoved(url, ReportedAfter("", url), "");
      AppendHolds(contents, profileName, t, section, edited);
    }
  }

  lemma {:induction false} EditKept(body: string, url: Option<string>)
    requires NoBrackets(Chunks(body)) && (url.Some? ==> '\n' !in url.value)
    ensures OtherLines(Chunks(EditBody(body, url))) == OtherLines(Chunks(body))
  {
    hide Chunks, NoBrackets, EditLines, Flatten, AllBodyLines, OtherLines, EditBody;
    var lines := Chunks(EndedLine(body));
    EndedShape(body);
    ChunksTerminated(EndedLine(body));
    BodyLinesForm(lines);
    EditLinesBody(lines, url);
    BodyLinesForm(EditLines(lines, url));
    ListOfTerminated(EditLines(lines, url));
    ChunksOfFlatten(EditLines(lines, url));
    EditBodyKept(body, url);
  }

  /** What an edit of a body does to the services that are not managed. */
  lemma {:induction false} EditOthers(body: string, url: Option<string>)
    requires NoBrackets(Chunks(body)) && (url.Some? ==> '\n' !in url.value)
    ensures SameOthers(Endpoints(Chunks(EditBody(body, url)), None), Endpoints(Chunks(body), None))
        <==> url.Some? || NoneMoves(Chunks(EndedLine(body)), None, {})
  {
    hide Chunks, NoBrackets, Endpoints, EditBody, NoneMoves, Left, Of, UrlOf, ReportedAfter;
    forall other
      ensures url.Some? && !Managed(other) ==>
                Of(Endpoints(Chunks(EditBody(body, url)), None), other) == Of(Endpoints(Chunks(body), None), other)
    {
      EditBodyReads(body, url, other);
    }
    EditBodyReads(body, url, "");
    EndedMeaning(body);
    OthersKeptIff(Chunks(EndedLine(body)), None, {});
  }

  /** Whether an edit moves no endpoint to a service that is not managed. */
  predicate MovesNone(contents: string, services: Option<string>, url: Option<string>) {
    services.Some? && url.None? ==> NoneMoves(Chunks(EndedLine(ReferencedBody(contents, services.value))), None, {})
  }

  /** For every editable file the services that are not managed have, in the section the
      profile refers to after the edit, the endpoints they had in the one it referred
      to before: always when setting, and when removing exactly if no endpoint line
      falls to one of them. The other lines of the section stay, in their order, as
      long as the profile refers to a section. */
  lemma {:induction false} OtherServicesKeptIff(contents: string, profileName: string, url: Option<string>)
    requires Editable(contents, profileName, url) && TargetIndex(Parse(contents), profileName) < |Parse(contents)|
    ensures var after := Apply(contents, profileName, url);
            var t := TargetIndex(Parse(contents), profileName);
            var services := Parse(contents)[t].services;
            && t < |Parse(after)|
            && (SameOthers(EndpointsIn(after, Parse(after)[t].services), EndpointsIn(contents, services))
                <==> MovesNone(contents, services, url))
            && (Parse(after)[t].services.Some? && !(services.Some? && IsLost(Parse(contents), profileName, services.value, url)) ==>
                  LinesIn(after, Parse(after)[t].services) == LinesIn(contents, services))
  {
    hide Chunks, Doc, Entries, Lower, NoBrackets, Endpoints, EditBody, WellFormed, TidyTarget, EditSection,
         LinkNewSection, TargetIndex, Parse, OneLine, HasProperties, TargetAt, ReferencedBody, NoneMoves, SameOthers,
         OtherLines, EndpointsOf, UrlOf;
    var t := TargetIndex(Parse(contents), profileName);
    var services, after := Parse(contents)[t].services, Apply(contents, profileName, url);
    TargetOfParse(contents, profileName);
    OneLineBreak(url);
    if services.Some? {
      var section := services.value;
      if IsLost(Parse(contents), profileName, section, url) {
        LostSection(contents, profileName, t, url.value);
        NoBlankServices(Doc(Chunks(contents)));
        NoBlankServices(Doc(Chunks(after)));
        LowerEmpty();
        SameOthersItself([]);
      } else {
        EditHolds(contents, profileName, t, section, url);
        HeldOthers(contents, after, section, Parse(after)[t].services, url);
      }
    } else if url.Some? {
      FreshBody(url.value);
      LinkHolds(contents, profileName, t, EditBody("", url));
      EmptyBody();
      EditOthers("", url);
      EditKept("", url);
      KeptNothing();
    } else {
      SameOthersItself([]);
    }
  }

  lemma {:induction false} OneLineBreak(url: Option<string>)
    requires url.Some? ==> OneLine(url.value)
    ensures url.Some? ==> '\n' !in url.value
  {
  }

  lemma {:induction false} SameOthersItself(es: seq<Endpoint>)
    ensures SameOthers(es, es)
  {
  }

  lemma {:induction false} HeldOthers(contents: string, after: string, section: string, services: Option<string>,
          url: Option<string>)
    requires WellFormed(contents) && (url.Some? ==> '\n' !in url.value)
    requires var edited := EditBody(ReferencedBody(contents, section), url);
             if services.Some? then Holds(after, services, edited) else !HasProperties(edited)
    ensures SameOthers(EndpointsIn(after, services), EndpointsIn(contents, Some(section))) <==> MovesNone(contents, Some(section), url)
    ensures services.Some? ==> LinesIn(after, services) == LinesIn(contents, Some(section))
  {
    hide Chunks, Doc, Lower, NoBrackets, Endpoints, EditBody, WellFormed, HasProperties, ReferencedBody, NoneMoves,
         SameOthers, OtherLines, EndpointsOf;
    var body := ReferencedBody(contents, section);
    ReferencedPlain(contents, section);
    ReferencedEndpoints(contents, section);
    EditOthers(body, url);
    EditKept(body, url);
    if Endpoints(Chunks(EditBody(body, url)), None) != [] { EndpointsHaveProperties(EditBody(body, url)); }
  }

  // ---------------------------------------------------------------------
  // The text of other sections
  // ---------------------------------------------------------------------

  lemma {:induction false} RelinkKeepsText(contents: string, profileName: string, t: nat, link: Option<string>,
          other: string)
    requires WellFormed(contents) && TargetAt(contents, profileName, t) && TidyTarget(contents, profileName)
    requires link.Some? ==> link.value != "" && GoodValue(link.value)
    requires IsHeaderName(other) && !EqIgnoreCase(ProfileHeader(profileName), other)
    ensures SectionText(Relink(contents, profileName, link), other) == SectionText(contents, other)
  {
    hide Chunks, WellFormed, TargetAt, TidyTarget, GoodValue, Relink, ProfileHeader, SectionText, SectionRaw,
         TrimBreaks, EqIgnoreCase, IsHeaderName;
    RelinkKeepsOther(contents, profileName, t, link, other);
    TextOfRaw(contents, other);
    TextOfRaw(Relink(contents, profileName, link), other);
  }

  lemma {:induction false} LinkKeepsText(contents: string, profileName: string, t: nat, body: string, other: string)
    requires WellFormed(contents) && TargetAt(contents, profileName, t) && TidyTarget(contents, profileName)
    requires NoBrackets(Chunks(body)) && IsHeaderName(other) && !EqIgnoreCase(ProfileHeader(profileName), other)
    requires SectionText(contents, other).Some?
    ensures SectionText(LinkNewSection(contents, Parse(contents), profileName, body), other) == SectionText(contents, other)
  {
    hide Chunks, WellFormed, TargetAt, TidyTarget, GoodValue, Relink, ProfileHeader, TrimBreaks, IsHeaderName, Parse,
         FreshName, IsTaken, GoodName, ServicesHeader, AppendSection, NoBrackets, GoodHeader, HeaderKind, SectionOf,
         Lower, Flatten;
    var m := FreshName(contents, Parse(contents), profileName);
    TargetName(contents, profileName, t);
    FreshNameGood(contents, Parse(contents), profileName);
    NameNotEmpty(m);
    ServicesHeaderKind(m);
    NotTakenAbsent(contents, Parse(contents), m);
    if EqIgnoreCase(ServicesHeader(m), other) {
      SectionOfSame(Chunks(contents), ServicesHeader(m), other);
    }
    RelinkKeepsText(contents, profileName, t, Some(m), other);
    AppendKeepsText(Relink(contents, profileName, Some(m)), ServicesHeader(m), body, other);
  }

  lemma {:induction false} EditKeepsText(contents: string, profileName: string, t: nat, section: string,
          url: Option<string>,
          other: string)
    requires WellFormed(contents) && TargetAt(contents, profileName, t) && TidyTarget(contents, profileName)
    requires Entries(Doc(Chunks(contents)))[t].services == Some(section) && (url.Some? ==> OneLine(url.value))
    requires IsHeaderName(other) && !EqIgnoreCase(ProfileHeader(profileName), other) && SectionText(contents, other).Some?
    requires IsShared(Parse(contents), profileName, section) || !EqIgnoreCase(ServicesHeader(section), other)
    ensures SectionText(EditSection(contents, Parse(contents), profileName, section, url), other) == SectionText(contents, other)
  {
    hide Chunks, Doc, Entries, Lower, ServicesHeader, NoBrackets, Endpoints, UrlOf, EndpointsOf, EditBody,
         ReportedAfter, EndsLine, HasProperties, SectionOf, BodyText, WellFormed, TidyTarget, IsShared, Relink,
         RemoveSection, EqIgnoreCase, ReplaceSectionBody, AppendSection, LinkNewSection, GoodName, TargetAt, Flatten,
         Trim, Parse, TrimBreaks, SectionText, IsHeaderName, ProfileHeader, IsServicesFor, HeaderIndex, BodyLength,
         Keys, GoodHeader;
    TargetIndexIn(contents, profileName, t);
    ReferencedReads(contents, section, url);
    ReferenceGood(contents, profileName, t);
    ServicesHeaderName(section);
    var edited := EditBody(ReferencedBody(contents, section), url);
    var located := SectionOf(Chunks(contents), ServicesHeader(section));
    if edited != ReferencedBody(contents, section) {
      if IsShared(Parse(contents), profileName, section) {
        if HasProperties(edited) {
          LinkKeepsText(contents, profileName, t, edited, other);
        } else {
          RelinkKeepsText(contents, profileName, t, None, other);
        }
      } else if !HasProperties(edited) {
        if located.Some? {
          var c := LocateServices(contents, section, located.value);
          RemovedTarget(contents, profileName, t, section, c);
          RemoveKeepsText(contents, ServicesHeader(section), other);
          RelinkKeepsText(RemoveSection(contents, ServicesHeader(section)), profileName, t, None, other);
        } else {
          NothingRemoved(url, ReportedAfter("", url), "");
        }
      } else if located.Some? {
        ReplaceKeepsText(contents, section, located.value, edited, other);
      } else {
        ReferenceOneLine(section);
        ServicesHeaderGood(section);
        AppendKeepsText(contents, ServicesHeader(section), edited, other);
      }
    }
  }

  lemma {:induction false} ReplaceKeepsText(contents: string, section: string, lines: seq<string>, body: string,
          other: string)
    requires SectionOf(Chunks(contents), ServicesHeader(section)) == Some(lines) && EndsLine(body) && NoBrackets(Chunks(body))
    requires IsHeaderName(other) && !EqIgnoreCase(ServicesHeader(section), other)
    ensures SectionText(ReplaceSectionBody(contents, ServicesHeader(section), Flatten(lines), body), other) == SectionText(contents, other)
  {
    hide Chunks, NoBrackets, Trim, Lower, SectionOf, Flatten, BodyText, EndedLine, HeaderLine, ReplaceSection,
         ServicesHeader, SectionText, SectionRaw, IsHeaderName, TrimBreaks, EndsLine;
    var header := ServicesHeader(section);
    ServicesHeaderName(section);
    LocatedText(contents, header, lines);
    var hd := EndedLine(lines[0]);
    HeaderLineReads(lines[0]);
    ChunksCons(hd, body);
    JoinEnds(hd, body);
    SectionBody(Chunks(contents), header, lines);
    BlockOfHeader(hd, lines[0], header, Chunks(body));
    ReplaceKeepsOtherSections(contents, header, hd + body, other);
    TextOfRaw(contents, other);
    TextOfRaw(ReplaceSectionBody(contents, header, Flatten(lines), body), other);
  }

  /** Every section but that of the profile and the one edited in place keeps its text, the
      line breaks at its end aside; so does a shared section that is left behind. */
  lemma {:induction false} OtherSectionsKeepText(contents: string, profileName: string, url: Option<string>,
          other: string)
    requires Editable(contents, profileName, url) && IsHeaderName(other) && SectionText(contents, other).Some?
    requires !EqIgnoreCase(ProfileHeader(profileName), other)
    requires var ps := Parse(contents);
             var t := TargetIndex(ps, profileName);
             t < |ps| && ps[t].services.Some? && !IsShared(ps, profileName, ps[t].services.value) ==>
               !EqIgnoreCase(ServicesHeader(ps[t].services.value), other)
    ensures SectionText(Apply(contents, profileName, url), other) == SectionText(contents, other)
  {
    hide Chunks, NoBrackets, EditBody, WellFormed, TidyTarget, EditSection, LinkNewSection, TargetIndex, Parse,
         OneLine, TargetAt, SectionText, EqIgnoreCase, ProfileHeader, ServicesHeader, IsShared, IsHeaderName,
         Endpoints, UrlOf;
    var ps := Parse(contents);
    var t := TargetIndex(ps, profileName);
    TargetOfParse(contents, profileName);
    if t < |ps| {
      if ps[t].services.Some? {
        EditKeepsText(contents, profileName, t, ps[t].services.value, url, other);
      } else if url.Some? {
        FreshBody(url.value);
        LinkKeepsText(contents, profileName, t, EditBody("", url), other);
      }
    }
  }
}

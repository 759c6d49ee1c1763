/** Edits keep files well-formed, and removing an endpoint undoes setting it. */
module EndpointRoundTrip {
  import opened Text
  import opened Sections
  import opened AwsParser
  import opened DocEdits
  import opened MergeWriter
  import opened ProfileWriter
  import opened ProfileKeys
  import opened ServicesEditor
  import opened ServicesStable
  import opened ServicesRemoval
  import opened EndpointEditor
  import opened EndpointOps
  import opened EndpointMeaning
  import opened EndpointBlank
  import opened EndpointTheorems
  import opened EndpointIdempotence

  // ---------------------------------------------------------------------
  // Well-formedness is kept
  // ---------------------------------------------------------------------

  lemma {:induction false} ReplacedDocForm(a: seq<Section>, s: Section, s': Section, b: seq<Section>)
    requires DistinctHeaders(a + [s] + b) && CanonicalDoc(a + [s] + b)
    requires EqIgnoreCase(s.header, s'.header) && CanonicalHeader(s'.header)
    ensures DistinctHeaders(a + [s'] + b) && CanonicalDoc(a + [s'] + b)
  {
    hide Lower, CanonicalHeader;
    var d, d' := a + [s] + b, a + [s'] + b;
    forall i | 0 <= i < |d'| ensures Lower(d'[i].header) == Lower(d[i].header) && CanonicalHeader(d'[i].header) {
      if i != |a| { assert d'[i] == d[i]; }
    }
  }

  lemma {:induction false} AppendedDocForm(d: seq<Section>, s: Section)
    requires DistinctHeaders(d) && CanonicalDoc(d) && CanonicalHeader(s.header)
    requires forall i | 0 <= i < |d| :: !EqIgnoreCase(d[i].header, s.header)
    ensures DistinctHeaders(d + [s]) && CanonicalDoc(d + [s])
  {
    hide Lower, CanonicalHeader;
    var d' := d + [s];
    assert forall i | 0 <= i < |d| :: d'[i] == d[i];
  }

  lemma {:induction false} ProfileCanonical(name: string)
    requires GoodName(name)
    ensures CanonicalHeader(ProfileHeader(name))
  {
    hide HeaderKind, GoodName, Lower, ServicesHeader, ProfileHeader;
    ProfileHeaderKind(name);
    LowerProfileHeader(name, CanonName(name)) by { CanonSameCase(name); }
  }

  lemma {:induction false} CanonSameCase(name: string)
    ensures EqIgnoreCase(name, CanonName(name))
  {
    hide Lower;
  }

  lemma {:induction false} ServicesCanonical(name: string)
    requires GoodName(name)
    ensures CanonicalHeader(ServicesHeader(name))
  {
    hide HeaderKind, GoodName, Lower, ProfileHeader;
    ServicesHeaderKind(name);
  }

  lemma {:induction false} RelinkKeepsForm(contents: string, profileName: string, t: nat, link: Option<string>)
    requires WellFormed(contents) && TargetAt(contents, profileName, t) && TidyTarget(contents, profileName)
    requires link.Some? ==> link.value != "" && GoodValue(link.value)
    ensures WellFormed(Relink(contents, profileName, link))
  {
    hide Chunks, Doc, Entries, HeaderKind, Lower, ProfileHeader, Relink, ClosedHeaders, TidyTarget, EditedEntry,
         GoodValue, DistinctHeaders, CanonicalDoc, CanonicalHeader, GoodName, GoodHeader, TargetAt;
    TargetIndexIn(contents, profileName, t);
    var a, s, s', b := RelinkEntries(contents, profileName, t, link);
    TargetName(contents, profileName, t);
    ProfileCanonical(profileName);
    ReplacedDocForm(a, s, s', b);
  }

  lemma {:induction false} AppendKeepsForm(contents: string, name: string, body: string)
    requires WellFormed(contents) && GoodName(name) && NoBrackets(Chunks(body))
    requires SectionOf(Chunks(contents), ServicesHeader(name)).None?
    ensures WellFormed(AppendSection(contents, ServicesHeader(name), body))
  {
    hide Chunks, Doc, Lower, Trim, ServicesHeader, ClosedHeaders, DistinctHeaders, CanonicalDoc, CanonicalHeader,
         GoodName, GoodHeader, NoBrackets, SectionOf, AppendSection, Endpoints, HeaderKind;
    ServicesHeaderKind(name);
    ServicesCanonical(name);
    var s' := AppendDoc(contents, ServicesHeader(name), body);
    var cs := Chunks(contents);
    SectionIffHeader(cs, ServicesHeader(name));
    forall i | 0 <= i < |Doc(cs)| ensures !EqIgnoreCase(Doc(cs)[i].header, ServicesHeader(name)) {
      DocHeader(cs, i);
    }
    AppendedDocForm(Doc(cs), s');
  }

  lemma {:induction false} ReplaceKeepsForm(contents: string, section: string, lines: seq<string>, body: string)
    requires WellFormed(contents) && SectionOf(Chunks(contents), ServicesHeader(section)) == Some(lines)
    requires EndsLine(body) && NoBrackets(Chunks(body))
    ensures WellFormed(ReplaceSectionBody(contents, ServicesHeader(section), Flatten(lines), body))
  {
    hide Chunks, Doc, Lower, ServicesHeader, NoBrackets, Endpoints, EndpointsOf, ReplaceSectionBody, Keys, Trim,
         HeaderIndex, BodyLength, SectionOf, EndsLine, IsServicesFor, ClosedHeaders, DistinctHeaders, CanonicalDoc,
         CanonicalHeader, Flatten;
    var cs := Chunks(contents);
    var c := LocateServices(contents, section, lines);
    ServicesHeaderName(section);
    ReplaceBodyDoc(contents, ServicesHeader(section), c, body);
    var a, s, b := Doc(cs[..c.i]), SectionFrom(cs[c.i], cs[c.i + 1..c.j]), Doc(cs[c.j..]);
    CanonicalAt(a, s, b);
    ReplacedDocForm(a, s, SectionFrom(cs[c.i], Chunks(body)), b);
  }

  lemma {:induction false} CanonicalAt(a: seq<Section>, s: Section, b: seq<Section>)
    requires CanonicalDoc(a + [s] + b)
    ensures CanonicalHeader(s.header)
  {
    hide CanonicalHeader;
    assert (a + [s] + b)[|a|] == s;
  }

  lemma {:induction false} LinkKeepsForm(contents: string, profileName: string, t: nat, body: string)
    requires WellFormed(contents) && TargetAt(contents, profileName, t) && TidyTarget(contents, profileName)
    requires NoBrackets(Chunks(body))
    ensures WellFormed(LinkNewSection(contents, Parse(contents), profileName, body))
  {
    hide Chunks, Lower, ProfileHeader, ServicesHeader, WellFormed, TargetAt, TidyTarget, GoodValue, GoodName,
         GoodHeader, Relink, AppendSection, NoBrackets, FreshName, IsTaken, SectionOf, Parse, HeaderKind,
         IsHeaderName, Flatten;
    var profiles := Parse(contents);
    var m := FreshName(contents, profiles, profileName);
    TargetName(contents, profileName, t);
    FreshNameGood(contents, profiles, profileName);
    NameNotEmpty(m);
    NotTakenAbsent(contents, profiles, m);
    ServicesHeaderName(m);
    ProfileNotServices(profileName, m);
    RelinkKeepsOther(contents, profileName, t, Some(m), ServicesHeader(m));
    RelinkKeepsForm(contents, profileName, t, Some(m));
    AppendKeepsForm(Relink(contents, profileName, Some(m)), m, body);
  }

  /** An edit leaves a well-formed file well-formed exactly if it does not write a
      section with a blank name. */
  lemma {:induction false} ApplyKeepsWellFormed(contents: string, profileName: string, url: Option<string>)
    requires Editable(contents, profileName, url)
    ensures var before := Parse(contents);
            var t := TargetIndex(before, profileName);
            var lost := t < |before| && before[t].services.Some? && IsLost(before, profileName, before[t].services.value, url);
            WellFormed(Apply(contents, profileName, url)) <==> !lost
  {
    hide Chunks, Doc, Entries, NoBrackets, EditBody, WellFormed, TidyTarget, LinkNewSection, TargetIndex, Parse,
         OneLine, HasProperties, TargetAt, ReferencedBody, Endpoints, UrlOf, EditSection, Reported;
    var before := Parse(contents);
    var t := TargetIndex(before, profileName);
    TargetOfParse(contents, profileName);
    if t < |before| {
      if before[t].services.Some? {
        var section := before[t].services.value;
        if IsLost(before, profileName, section, url) {
          LostSection(contents, profileName, t, url.value);
          FreshBody(url.value);
          BlankIsNotWellFormed(contents, EditBody("", url));
        } else {
          EditSectionKeepsForm(contents, profileName, t, section, url);
        }
      } else if url.Some? {
        FreshBody(url.value);
        LinkKeepsForm(contents, profileName, t, EditBody("", url));
      }
    }
  }

  lemma {:induction false} BlankIsNotWellFormed(contents: string, body: string)
    requires NoBrackets(Chunks(body))
    ensures !WellFormed(AppendSection(contents, ServicesHeader(""), body))
  {
    hide Chunks, Doc, NoBrackets, AppendSection, HeaderKind, GoodHeader, Lower, ServicesHeader, ClosedHeaders,
         DistinctHeaders, Keys, Endpoints;
    BlankHeaderKind();
    var s := AppendDoc(contents, ServicesHeader(""), body);
    BlankPrefix();
    var d := Doc(Chunks(contents)) + [s];
    assert d[|d| - 1] == s && !CanonicalHeader(s.header);
  }

  lemma {:induction false} BlankPrefix()
    ensures "[services " <= Lower(ServicesHeader(""))
  {
    LowerPrefix(ServicesHeader(""), "");
  }

  lemma {:induction false} EditSectionKeepsForm(contents: string, profileName: string, t: nat, section: string,
          url: Option<string>)
    requires WellFormed(contents) && TargetAt(contents, profileName, t) && TidyTarget(contents, profileName)
    requires Entries(Doc(Chunks(contents)))[t].services == Some(section)
    requires (url.Some? ==> OneLine(url.value)) && !IsLost(Parse(contents), profileName, section, url)
    ensures WellFormed(EditSection(contents, Parse(contents), profileName, section, url))
  {
    hide Chunks, Doc, Entries, Lower, ServicesHeader, NoBrackets, Endpoints, UrlOf, EndpointsOf, EditBody,
         ReportedAfter, EndsLine, HasProperties, SectionOf, BodyText, WellFormed, TidyTarget, IsShared, Relink,
         RemoveSection, ReplaceSectionBody, AppendSection, LinkNewSection, GoodName, TargetAt, Flatten, Trim, Parse,
         IsServicesFor, HeaderIndex, BodyLength, Keys;
    TargetIndexIn(contents, profileName, t);
    ReferencedReads(contents, section, url);
    ReferenceGood(contents, profileName, t);
    var profiles := Parse(contents);
    var edited := EditBody(ReferencedBody(contents, section), url);
    var located := SectionOf(Chunks(contents), ServicesHeader(section));
    if edited != ReferencedBody(contents, section) {
      if IsShared(profiles, profileName, section) {
        if HasProperties(edited) {
          LinkKeepsForm(contents, profileName, t, edited);
        } else {
          RelinkKeepsForm(contents, profileName, t, None);
        }
      } else if !HasProperties(edited) {
        if located.Some? {
          var c := LocateServices(contents, section, located.value);
          RemovedTarget(contents, profileName, t, section, c);
          RelinkKeepsForm(RemoveSection(contents, ServicesHeader(section)), profileName, t, None);
        } else {
          NothingRemoved(url, ReportedAfter("", url), "");
        }
      } else if located.Some? {
        ReplaceKeepsForm(contents, section, located.value, edited);
      } else {
        NothingRemoved(url, ReportedAfter("", url), "");
        AppendKeepsForm(contents, section, edited);
      }
    }
  }

  lemma {:induction false} RemovedTarget(contents: string, profileName: string, t: nat, section: string, c: Cut)
    requires WellFormed(contents) && TargetAt(contents, profileName, t) && TidyTarget(contents, profileName)
    requires CutAt(Chunks(contents), ServicesHeader(section), c) && c.i < c.j <= |Chunks(contents)|
    requires var cs := Chunks(contents);
             var s := SectionFrom(cs[c.i], cs[c.i + 1..c.j]);
             && Doc(cs) == Doc(cs[..c.i]) + [s] + Doc(cs[c.j..])
             && IsServicesFor(s, Lower(section))
    ensures var removed := RemoveSection(contents, ServicesHeader(section));
            WellFormed(removed) && TargetAt(removed, profileName, t) && TidyTarget(removed, profileName)
  {
    hide Chunks, Doc, Entries, Lower, ServicesHeader, WellFormed, HeaderKind, ProfileHeader, SectionOf, RemoveSection,
         HeaderIndex, BodyLength, IsServicesFor, Trim, TidyFrom, Keys, Endpoints;
    var cs := Chunks(contents);
    var a, s, b := Doc(cs[..c.i]), SectionFrom(cs[c.i], cs[c.i + 1..c.j]), Doc(cs[c.j..]);
    RemovedFile(contents, section, c);
    SameServicesFor(s, s);
    EntriesThree(a, s, b);
    EntriesConcat(a, b);
    ServicesHeaderName(section);
    ProfileHeaderName(profileName);
    ProfileNotServices(profileName, section);
    RemoveTidy(contents, ServicesHeader(section), c, ProfileHeader(profileName));
  }

  // ---------------------------------------------------------------------
  // The body written for a profile without a section
  // ---------------------------------------------------------------------

  /** The six lines a profile without a section gets. */
  function FreshLines(url: string): seq<string> {
    NewService(A, url) + (NewService(B, url) + NewService(C, url))
  }

  lemma {:induction false} NewServiceOpeners(service: string, other: string, url: string)
    requires ServiceName(service) && service != other
    ensures NoOpener(NewService(service, url), other)
    ensures !InRun(NewService(service, url)[0]) && Opens(NewService(service, url)[0], service)
    ensures InRun(NewService(service, url)[1]) && IsEndpointLine(NewService(service, url)[1])
    ensures Trim(NewService(service, url)[1]) != ""
  {
    hide Trim, ServiceName, NewEndpointLine, LineKeyValue, Opens;
    NewOpenerReads(service);
    NewLineReads(url);
    OtherOpener(service + " =\n", service, other);
    RunNoOpener([NewEndpointLine(url)], other);
    assert !Opens([NewEndpointLine(url)][0], other);
  }

  lemma {:induction false} SetOnto(lines: seq<string>, service: string, url: string)
    requires NoOpener(lines, service) && (lines != [] ==> Trim(lines[|lines| - 1]) != "")
    ensures SetService(lines, service, url) == lines + NewService(service, url)
  {
    hide Opens, Trim, NewService;
    OpenerNone(lines, service);
    assert ContentLength(lines) == |lines|;
    assert lines[..|lines|] == lines && lines[|lines|..] == [];
  }

  lemma {:induction false} NoOpenerJoin(a: seq<string>, b: seq<string>, service: string)
    requires NoOpener(a, service) && NoOpener(b, service)
    ensures NoOpener(a + b, service)
  {
    hide Opens;
  }

  lemma {:induction false} FreshLinesEdit(url: string)
    ensures EditLines([], Some(url)) == FreshLines(url)
  {
    hide Opens, Trim, NewService, SetService, NoOpener, InRun, IsEndpointLine, ServiceName;
    Names();
    var x, y, z := NewService(A, url), NewService(B, url), NewService(C, url);
    NewServiceOpeners(A, B, url);
    NewServiceOpeners(A, C, url);
    NewServiceOpeners(B, C, url);
    NewServiceLength(A, url);
    NewServiceLength(B, url);
    NoneOpen();
    SetOnto([], A, url);
    assert [] + x == x;
    SetOnto(x, B, url);
    NoOpenerJoin(x, y, C);
    assert (x + y)[|x + y| - 1] == y[1];
    SetOnto(x + y, C, url);
    ConcatAssoc(x, y, z);
  }

  lemma {:induction false} NoneOpen()
    ensures forall service :: NoOpener([], service)
  {
  }

  lemma {:induction false} NewServiceLength(service: string, url: string)
    ensures |NewService(service, url)| == 2
  {
  }

  /** A sub-section that holds an endpoint only disappears when it is removed. */
  lemma {:induction false} RemoveNew(service: string, next: string, rest: seq<string>, url: string)
    requires ServiceName(service) && NoOpener(rest, service)
    requires rest != [] ==> ServiceName(next) && next != service && Opens(rest[0], next)
    ensures RemoveService(NewService(service, url) + rest, service) == rest
  {
    hide Trim, ServiceName, Opens, InRun, IsEndpointLine, NewEndpointLine, Contiguous, Of, Endpoints, OpenerIndex,
         RunLength;
    var hd, e := service + " =\n", NewEndpointLine(url);
    NewOpenerReads(service);
    NewLineReads(url);
    var lines := NewService(service, url) + rest;
    assert lines == [] + [hd] + [e] + rest;
    if rest != [] { OtherOpener(rest[0], next, service); }
    assert SplitAt(lines, service, [], hd, [e], rest);
    SplitContiguous(lines, service, [], hd, [e], rest);
    assert [e][1..] == [];
    assert NonEndpoints([e]) == [] + NonEndpoints([]);
  }

  lemma {:induction false} OpenerEndpoints(l: string, service: string, open: Option<string>)
    requires ServiceName(service) && Opens(l, service)
    ensures LineEndpoints(l, open) == []
  {
    hide ServiceName;
    OpenerReads(l, service, open);
  }

  lemma {:induction false} FreshLinesRemove(url: string)
    ensures EditLines(FreshLines(url), None) == []
  {
    hide Trim, ServiceName, Opens, InRun, IsEndpointLine, NewService, RemoveService, NoOpener;
    Names();
    var x, y, z := NewService(A, url), NewService(B, url), NewService(C, url);
    NewServiceOpeners(B, A, url);
    NewServiceOpeners(C, A, url);
    NewServiceOpeners(C, B, url);
    NewServiceLength(B, url);
    NewServiceLength(C, url);
    NoOpenerJoin(y, z, A);
    NoneOpen();
    RemoveNew(A, B, y + z, url);
    RemoveNew(B, C, z, url);
    assert z + [] == z;
    RemoveNew(C, C, [], url);
  }

  lemma {:induction false} FreshBodyText(url: string)
    requires GoodUrl(url)
    ensures var body := EditBody("", Some(url));
            && body == Flatten(FreshLines(url)) && TrimBreaks(body) + "\n" == body
            && Chunks(EndedLine(body)) == FreshLines(url)
  {
    hide Chunks, NewEndpointLine, NewService, EditLines, NoBrackets, FreshLines, HasProperties, Endpoints, UrlOf,
         EditBody, Flatten, TrimBreaks;
    EmptyBody();
    FreshBody(url);
    ReportedSome(Some(url));
    EndpointIsProperty(EditBody("", Some(url)));
    NotEmptyBody(EditBody("", Some(url)));
    EditedForm("", Some(url));
    FreshLinesEdit(url);
    FreshLast(url);
  }

  lemma {:induction false} FreshLast(url: string)
    requires GoodUrl(url)
    ensures TrimBreaks(Flatten(FreshLines(url))) + "\n" == Flatten(FreshLines(url))
  {
    hide NewService, Flatten, GoodUrl;
    var lines := FreshLines(url);
    NewServiceLength(A, url);
    NewServiceLength(B, url);
    LastNew(C, url);
    var init, last := lines[..5], NewEndpointLine(url);
    assert lines == init + [last];
    FlattenLast(init, last);
    var t := "  " + EndpointText(url);
    EndpointNoBreak(url);
    TrimBreaksConcat(t, "\n");
    BreaksTrimmed("\n");
    TrimBreaksConcat(Flatten(init), last);
    ConcatAssoc(Flatten(init), t, "\n");
  }

  lemma {:induction false} LastNew(service: string, url: string)
    ensures |NewService(service, url)| == 2 && NewService(service, url)[1] == NewEndpointLine(url)
  {
  }

  lemma {:induction false} EndpointNoBreak(url: string)
    requires GoodUrl(url)
    ensures TrimBreaks("  " + EndpointText(url)) == "  " + EndpointText(url)
  {
    var t := "  " + EndpointText(url);
    assert t[|t| - 1] == (if url == "" then ' ' else url[|url| - 1]);
  }

  /** The removal of a fresh body leaves nothing. */
  lemma {:induction false} FreshBodyRemoved(url: string)
    requires GoodUrl(url)
    ensures var body := EditBody("", Some(url));
            EditBody(body, None) == "" && body != "" && !HasProperties("")
  {
    hide Chunks, NoBrackets, FreshLines, HasProperties, EditLines, Endpoints, UrlOf, EndedLine;
    FreshBodyText(url);
    FreshLinesRemove(url);
    EmptyBody();
    FreshBody(url);
    ReportedSome(Some(url));
    EndpointIsProperty(EditBody("", Some(url)));
    NotEmptyBody(EditBody("", Some(url)));
    PropertiesNotBlank(EditBody("", Some(url)));
    assert Flatten([]) == "";
    NoProperties();
  }

  // ---------------------------------------------------------------------
  // The linked file can be edited again
  // ---------------------------------------------------------------------

  /** The target's section is as tidy after it is linked as before. */
  lemma {:induction false} LinkKeepsTidy(contents: string, profileName: string, t: nat, body: string)
    requires WellFormed(contents) && TargetAt(contents, profileName, t) && TidyTarget(contents, profileName)
    requires NoBrackets(Chunks(body))
    ensures TidyTarget(LinkNewSection(contents, Parse(contents), profileName, body), profileName)
  {
    hide Chunks, Doc, Entries, Lower, Trim, ProfileHeader, ServicesHeader, WellFormed, Keys, HeaderKind, HeaderIndex,
         BodyLength, GoodValue, RelinkBlock, Relinked, TidyFrom, Relink, GoodHeader, ReplaceSection, GoodName,
         FreshName, IsTaken, Parse, NoBrackets, TrimBreaks, AppendSection, Flatten, EndsLine, IsBracket, SectionOf,
         OneLine, EndedLine;
    var cs := Chunks(contents);
    var profiles := Parse(contents);
    var m := FreshName(contents, profiles, profileName);
    var c := LocateTarget(contents, profileName, t);
    TargetIndexIn(contents, profileName, t);
    TargetName(contents, profileName, t);
    FreshNameGood(contents, profiles, profileName);
    NameNotEmpty(m);
    var header := ProfileHeader(profileName);
    ProfileHeaderName(profileName);
    SectionAtIndex(cs, header);
    var section := cs[c.i..c.j];
    RelinkedBlock(contents, header, section, Some(m));
    RelinkIsReplace(contents, profileName, Some(m), section);
    var block := RelinkBlock(contents, header, Some(m));
    ReplaceChunks(contents, header, block);
    SectionOfReplaced(cs, header, Chunks(block), header);
    var linked := Relink(contents, profileName, Some(m));
    assert TidyIn(Chunks(linked), header);
    ServicesHeaderKind(m);
    AppendKeepsTidy(linked, ServicesHeader(m), body, header);
  }

  lemma {:induction false} AppendKeepsTidy(contents: string, header: string, body: string, other: string)
    requires GoodHeader(header) && NoBrackets(Chunks(body)) && IsHeaderName(other)
    requires SectionOf(Chunks(contents), other).Some? && TidyIn(Chunks(contents), other)
    ensures TidyIn(Chunks(AppendSection(contents, header, body)), other)
  {
    hide Chunks, NoBrackets, TrimBreaks, Trim, AppendSection, Lower, Flatten, TidyFrom, EndsLine, OneLine;
    var pad := if contents == "" then "" else EndedLine(contents) + "\n";
    var block := header + "\n" + TrimBreaks(body) + "\n";
    AppendParts(contents, header, body, pad, block);
    HeaderOneLine(header);
    SectionChunks(header, body);
    PaddedDoc(contents);
    ChunksConcat(pad, block);
    TrimmedBody(body);
    HeadedSection(header, Chunks(TrimBreaks(body) + "\n"));
    SectionOfSplit(Chunks(pad), Chunks(block), other);
    EmptyBody();
    if contents != "" {
      EndedTidy(contents, other);
      AddBreakTidy(EndedLine(contents), '\n', other);
      SectionRawPadded(contents, other);
    }
  }

  lemma {:induction false} EndedTidy(s: string, header: string)
    requires IsHeaderName(header)
    ensures TidyIn(Chunks(EndedLine(s)), header) == TidyIn(Chunks(s), header)
  {
    hide Chunks, TidyIn;
    if !EndsLine(s) { AddBreakTidy(s, '\n', header); }
  }

  // ---------------------------------------------------------------------
  // Removing undoes setting
  // ---------------------------------------------------------------------

  /** Nobody but the target refers to the name it was linked to. */
  lemma {:induction false} FreshUnshared(contents: string, after: seq<ProfileInfo>, profileName: string, t: nat,
          m: string, url: Option<string>)
    requires !IsTaken(contents, Parse(contents), m)
    requires t == TargetIndex(Parse(contents), profileName) < |Parse(contents)|
    requires Outcome(Parse(contents), after, t, url, None)
    ensures !IsShared(after, profileName, m)
    ensures forall i | 0 <= i < |after| && i != t :: after[i] == Parse(contents)[i] && !RefersTo(after[i], m)
  {
    hide Lower, Parse, TargetIndex, SectionRaw;
    var before := Parse(contents);
    forall i | 0 <= i < |after| && i != t ensures after[i] == before[i] && !RefersTo(after[i], m) {
      assert OtherEntry(before[i], after[i], url, None);
      assert before[i] in before;
    }
    assert EditedEntry(before[t], after[t], url);
  }

  /** On a profile without a `services` reference, removing an endpoint undoes
      setting it: the file parses as it did, but for the case of the name the
      caller used. */
  lemma {:induction false} SetThenRemove(contents: string, profileName: string, url: string)
    requires Editable(contents, profileName, Some(url)) && GoodUrl(url)
    requires var t := TargetIndex(Parse(contents), profileName);
             t < |Parse(contents)| && Parse(contents)[t].services == None
    ensures var before := Parse(contents);
            var t := TargetIndex(before, profileName);
            var after := Parse(Apply(Apply(contents, profileName, Some(url)), profileName, None));
            && after == before[t := before[t].(name := CanonName(profileName))]
            && EqIgnoreCase(CanonName(profileName), before[t].name)
  {
    hide Chunks, Doc, Entries, NoBrackets, EditBody, WellFormed, TidyTarget, LinkNewSection, TargetIndex, Parse,
         OneLine, HasProperties, TargetAt, ReferencedBody, Endpoints, UrlOf, EditSection, Reported, Outcome,
         FreshName, IsTaken, IsShared, RefersTo, GoodUrl, Lower, GoodName, GoodHeader, HeaderKind, GoodValue,
         SectionOf, EditLines, FreshLines;
    var before := Parse(contents);
    var t := TargetIndex(before, profileName);
    TargetOfParse(contents, profileName);
    TargetIndexIn(contents, profileName, t);
    TargetUrl(contents, t);
    FreshBody(url);
    var body := EditBody("", Some(url));
    var m := FreshName(contents, before, profileName);
    var linked := Apply(contents, profileName, Some(url));
    LinkOutcome(contents, profileName, t, body, Reported(Some(url)));
    var mid := Parse(linked);
    LinkedFile(contents, profileName, t, url, body, m, linked);
    FreshUnshared(contents, mid, profileName, t, m, Reported(Some(url)));
    RemoveLinked(linked, profileName, t, m, url, body);
    Combine(before, mid, Parse(Apply(linked, profileName, None)), t, m, profileName, Reported(Some(url)));
  }

  /** What holds of the file after the link. */
  lemma {:induction false} LinkedFile(contents: string, profileName: string, t: nat, url: string, body: string,
          m: string, linked: string)
    requires WellFormed(contents) && TargetAt(contents, profileName, t) && TidyTarget(contents, profileName) && GoodUrl(url)
    requires t == TargetIndex(Parse(contents), profileName) < |Parse(contents)|
    requires body == EditBody("", Some(url)) && NoBrackets(Chunks(body))
    requires m == FreshName(contents, Parse(contents), profileName)
    requires linked == LinkNewSection(contents, Parse(contents), profileName, body)
    requires Outcome(Parse(contents), Parse(linked), t, Reported(Some(url)), None)
    ensures WellFormed(linked) && TidyTarget(linked, profileName) && TargetAt(linked, profileName, t)
    ensures TargetIndex(Parse(linked), profileName) == t < |Parse(linked)|
    ensures ReferencedBody(linked, m) == body && GoodName(m) && !IsTaken(contents, Parse(contents), m)
  {
    hide Chunks, Doc, Entries, NoBrackets, EditBody, WellFormed, TidyTarget, LinkNewSection, TargetIndex, Parse,
         TargetAt, ReferencedBody, Reported, Outcome, FreshName, IsTaken, GoodUrl, GoodName, GoodHeader, HeaderKind,
         GoodValue, TrimBreaks, FreshLines, Flatten;
    TargetName(contents, profileName, t);
    FreshNameGood(contents, Parse(contents), profileName);
    FreshBodyText(url);
    LinkedBody(contents, profileName, t, body);
    LinkKeepsForm(contents, profileName, t, body);
    LinkKeepsTidy(contents, profileName, t, body);
    SameTarget(Parse(contents), Parse(linked), profileName, Reported(Some(url)), None);
    OutcomeUrl(Parse(contents), Parse(linked), t, Reported(Some(url)), None);
    TargetOfParse(linked, profileName);
  }

  /** Removing the endpoint from the linked file deletes the section again. */
  lemma {:induction false} RemoveLinked(linked: string, profileName: string, t: nat, m: string, url: string,
          body: string)
    requires WellFormed(linked) && TidyTarget(linked, profileName) && TargetAt(linked, profileName, t) && GoodUrl(url)
    requires t == TargetIndex(Parse(linked), profileName) < |Parse(linked)| && Parse(linked)[t].services == Some(m)
    requires ReferencedBody(linked, m) == body == EditBody("", Some(url)) && !IsShared(Parse(linked), profileName, m)
    ensures var after := Parse(Apply(linked, profileName, None));
            && Outcome(Parse(linked), after, t, None, Some(m))
            && after[t].services == None && after[t].name == CanonName(profileName)
  {
    hide Chunks, EditBody, WellFormed, TidyTarget, TargetIndex, Parse, TargetAt, IsShared, GoodUrl, Outcome,
         HasProperties, Relink, RemoveSection, ServicesHeader, SectionOf, Flatten, BodyText, Lower;
    FreshBodyRemoved(url);
    var located := SectionOf(Chunks(linked), ServicesHeader(m));
    RemoveOutcome(linked, profileName, t, m, located.value);
  }

  lemma {:induction false} Combine(before: seq<ProfileInfo>, mid: seq<ProfileInfo>, after: seq<ProfileInfo>, t: nat,
          m: string, profileName: string, url: Option<string>)
    requires t < |before| && Outcome(before, mid, t, url, None) && Outcome(mid, after, t, None, Some(m))
    requires before[t].services == None && before[t].endpointUrl == None
    requires after[t].services == None && after[t].name == CanonName(profileName)
    requires forall i | 0 <= i < |mid| && i != t :: mid[i] == before[i] && !RefersTo(mid[i], m)
    ensures after == before[t := before[t].(name := CanonName(profileName))]
    ensures EqIgnoreCase(CanonName(profileName), before[t].name)
  {
    hide Lower, RefersTo;
    var target := before[t := before[t].(name := CanonName(profileName))];
    assert EditedEntry(before[t], mid[t], url) && EditedEntry(mid[t], after[t], None);
    forall i | 0 <= i < |after| ensures after[i] == target[i] {
      if i != t { assert OtherEntry(mid[i], after[i], None, Some(m)); }
    }
  }
}

/** The main theorems about `apply_value_source_endpoint`. */
module EndpointTheorems {
  import opened Text
  import opened Sections
  import opened AwsParser
  import opened DocEdits
  import opened MergeWriter
  import opened ProfileWriter
  import opened ProfileKeys
  import opened ServicesEditor
  import opened ServicesRemoval
  import opened EndpointEditor
  import opened EndpointOps
  import opened EndpointMeaning
  import opened EndpointBlank

  // ---------------------------------------------------------------------
  // Appending the referenced section, and removing it
  // ---------------------------------------------------------------------

  /** A profile that names a missing section gets that section. */
  lemma {:induction false} AppendOutcome(contents: string, profileName: string, t: nat, section: string,
          edited: string, url: Option<string>)
    requires WellFormed(contents) && TargetAt(contents, profileName, t)
    requires Entries(Doc(Chunks(contents)))[t].services == Some(section) && GoodName(section)
    requires !IsShared(Parse(contents), profileName, section)
    requires SectionOf(Chunks(contents), ServicesHeader(section)).None?
    requires NoBrackets(Chunks(edited)) && UrlOf(Endpoints(Chunks(edited), None)) == url
    ensures var after := Parse(AppendSection(contents, ServicesHeader(section), edited));
            && Outcome(Parse(contents), after, t, url, Some(section))
            && after[t].services == Some(section)
  {
    hide Chunks, Doc, Entries, Lower, ServicesHeader, NoBrackets, Endpoints, UrlOf, EndpointsOf, Outcome, IsShared,
         AppendSection, WellFormed, SectionOf, HeaderKind, GoodName, GoodHeader, Interpret;
    ServicesHeaderKind(section);
    AbsentNoEndpoints(contents, section);
    var s' := AppendDoc(contents, ServicesHeader(section), edited);
    var d := Doc(Chunks(contents));
    var d' := d + [s'];
    AppendedEntries(d, s', section);
    forall k ensures EndpointsOf(d', k) == if k == Lower(section) then s'.endpoints else EndpointsOf(d, k) {
      EndpointsOfOne(d, s', k);
      NewSectionFor(s', section, k);
      assert EndpointsOf(d, k) + [] == EndpointsOf(d, k);
    }
    InPlaceOutcome(contents, profileName, t, section, d', url);
  }

  predicate TidyIn(cs: seq<string>, header: string) {
    match SectionOf(cs, header)
    case None => true
    case Some(section) => section != [] ==> TidyFrom(section[1..], None)
  }

  lemma {:induction false} TidyInSameReads(cs: seq<string>, ds: seq<string>, header: string)
    requires SameReads(cs, ds)
    ensures TidyIn(cs, header) == TidyIn(ds, header)
    decreases |cs|
  {
    hide Trim, IsIndented, Lower, TidyFor;
    if cs != [] {
      assert SameReads(cs[1..], ds[1..]);
      if Matches(cs[0], header) {
        SameTrimsLocate(cs[1..], ds[1..], header);
        var n := BodyLength(cs[1..]);
        assert cs[..1 + n][1..] == cs[1..][..n] && ds[..1 + n][1..] == ds[1..][..n];
        TidySameReads(cs[1..][..n], ds[1..][..n], None, {"services"});
      } else {
        TidyInSameReads(cs[1..], ds[1..], header);
      }
    }
  }

  lemma {:induction false} TidyInBlank(cs: seq<string>, c: string, header: string)
    requires Trim(c) == "" && IsHeaderName(header)
    ensures TidyIn(cs + [c], header) == TidyIn(cs, header)
    decreases |cs|
  {
    hide Trim, IsIndented, Lower, TidyFor;
    BlankNoMatch(c, header);
    if cs == [] {
      assert cs + [c] == [c] && [c][1..] == [];
    } else {
      assert (cs + [c])[1..] == cs[1..] + [c] && (cs + [c])[0] == cs[0];
      if Matches(cs[0], header) {
        LocateInPrefix(cs[1..], c, header);
        var n, n' := BodyLength(cs[1..]), BodyLength(cs[1..] + [c]);
        assert cs[..1 + n][1..] == cs[1..][..n];
        assert (cs + [c])[..1 + n'][1..] == (cs[1..] + [c])[..n'];
        if n == |cs[1..]| {
          assert cs[1..][..n] == cs[1..] && (cs[1..] + [c])[..n'] == cs[1..] + [c];
          TidyBlankLast(cs[1..], c, None, {"services"});
        } else {
          assert (cs[1..] + [c])[..n] == cs[1..][..n];
        }
      } else {
        TidyInBlank(cs[1..], c, header);
      }
    }
  }

  lemma {:induction false} BlankNoMatch(c: string, header: string)
    requires Trim(c) == "" && IsHeaderName(header)
    ensures !Matches(c, header) && !IsBracket(c)
  {
    assert |Lower(header)| == |header| && |Lower("")| == 0;
  }

  lemma {:induction false} AddBreakTidy(s: string, b: char, header: string)
    requires IsLineBreak(b) && IsHeaderName(header)
    ensures TidyIn(Chunks(s + [b]), header) == TidyIn(Chunks(s), header)
  {
    hide Chunks, Trim, EndsLine, SameReads, TidyIn;
    ChunksAddBreak(s, b);
    var cs := Chunks(s);
    if EndsLine(s) {
      TrimBreak(b);
      TidyInBlank(cs, [b], header);
    } else {
      var init, last := cs[..|cs| - 1], cs[|cs| - 1];
      assert cs == init + [last];
      SameReadsLast(init, last, b);
      TidyInSameReads(init + [last + [b]], cs, header);
    }
  }

  lemma {:induction false} TrimBreaksTidy(s: string, header: string)
    requires IsHeaderName(header)
    ensures TidyIn(Chunks(TrimBreaks(s)), header) == TidyIn(Chunks(s), header)
  {
    hide Chunks, TidyIn;
    if s != "" && IsLineBreak(s[|s| - 1]) {
      TrimBreaksTidy(s[..|s| - 1], header);
      AddBreakTidy(s[..|s| - 1], s[|s| - 1], header);
      assert s == s[..|s| - 1] + [s[|s| - 1]];
    }
  }

  /** Removing a section leaves the target's section as tidy as it was. */
  lemma {:induction false} RemoveTidy(contents: string, header: string, c: Cut, other: string)
    requires IsHeaderName(header) && IsHeaderName(other) && !EqIgnoreCase(header, other)
    requires CutAt(Chunks(contents), header, c)
    ensures TidyIn(Chunks(RemoveSection(contents, header)), other) == TidyIn(Chunks(contents), other)
  {
    hide Chunks, Trim, Lower, IsBracket, HeaderIndex, BodyLength, TrimBreaks, EndsLine, TidyFrom, OneSection,
         IsHeaderName;
    var cs := Chunks(contents);
    SectionBounds(cs, header);
    assert cs == cs[..c.i] + cs[c.i..c.j] + cs[c.j..];
    SectionOfThree(cs[..c.i], cs[c.i..c.j], cs[c.j..], header, other);
    SectionOfSplit(cs[..c.i], cs[c.j..], other);
    var before, after := Flatten(cs[..c.i]), Flatten(cs[c.j..]);
    ChunkListSlice(cs, 0, c.i);
    ChunkListSlice(cs, c.j, |cs|);
    assert cs[0..c.i] == cs[..c.i] && cs[c.j..|cs|] == cs[c.j..];
    ChunksOfFlatten(cs[..c.i]);
    ChunksOfFlatten(cs[c.j..]);
    if after != "" {
      PrefixTerminated(cs, c.i);
      TerminatedEndsLine(cs[..c.i]);
      ChunksConcat(before, after);
    } else {
      NoChunks();
      assert cs[c.j..] == [];
      assert cs[..c.i] + [] == cs[..c.i];
      TrimBreaksTidy(before, other);
      AddBreakTidy(TrimBreaks(before), '\n', other);
    }
  }

  lemma {:induction false} SubDoc(a: seq<Section>, s: Section, b: seq<Section>)
    requires DistinctHeaders(a + [s] + b) && CanonicalDoc(a + [s] + b)
    ensures DistinctHeaders(a + b) && CanonicalDoc(a + b)
  {
    hide Lower, CanonicalHeader;
    var d, d' := a + [s] + b, a + b;
    forall i | 0 <= i < |d'| ensures d'[i] == d[if i < |a| then i else i + 1] {}
  }

  lemma {:induction false} RemovedFile(contents: string, section: string, c: Cut)
    requires WellFormed(contents) && CutAt(Chunks(contents), ServicesHeader(section), c)
    ensures WellFormed(RemoveSection(contents, ServicesHeader(section)))
    ensures var cs := Chunks(contents);
            Doc(Chunks(RemoveSection(contents, ServicesHeader(section)))) == Doc(cs[..c.i]) + Doc(cs[c.j..])
  {
    hide Chunks, Doc, ServicesHeader, RemoveSection, ClosedHeaders, DistinctHeaders, CanonicalDoc, HeaderIndex,
         BodyLength, Keys, Endpoints, Trim;
    ServicesHeaderName(section);
    var cs := Chunks(contents);
    RemoveDoc(contents, ServicesHeader(section), c);
    DocAroundSection(cs, ServicesHeader(section), c.i, c.j);
    SubDoc(Doc(cs[..c.i]), SectionFrom(cs[c.i], cs[c.i + 1..c.j]), Doc(cs[c.j..]));
  }

  /** Deleting the emptied section and the reference to it. */
  lemma {:induction false} RemoveOutcome(contents: string, profileName: string, t: nat, section: string,
          lines: seq<string>)
    requires WellFormed(contents) && TargetAt(contents, profileName, t) && TidyTarget(contents, profileName)
    requires !IsShared(Parse(contents), profileName, section)
    requires SectionOf(Chunks(contents), ServicesHeader(section)) == Some(lines)
    ensures var after := Parse(Relink(RemoveSection(contents, ServicesHeader(section)), profileName, None));
            && Outcome(Parse(contents), after, t, None, Some(section))
            && after[t].services == None && after[t].name == CanonName(profileName)
  {
    hide Chunks, Doc, Entries, Lower, ServicesHeader, EndpointsOf, UrlOf, Outcome, IsShared, RemoveSection, Relink,
         WellFormed, HeaderKind, ProfileHeader, SectionOf, Keys, Endpoints, Interpret, HeaderIndex, BodyLength,
         IsServicesFor, Trim, EditedEntry, ClosedHeaders, TidyFrom;
    var cs := Chunks(contents);
    var c := LocateServices(contents, section, lines);
    var a, s, b := Doc(cs[..c.i]), SectionFrom(cs[c.i], cs[c.i + 1..c.j]), Doc(cs[c.j..]);
    var header := ServicesHeader(section);
    var removed := RemoveSection(contents, header);
    RemovedFile(contents, section, c);
    SameServicesFor(s, s);
    EntriesThree(a, s, b);
    EntriesConcat(a, b);
    ServicesHeaderName(section);
    ProfileHeaderName(profileName);
    ProfileNotServices(profileName, section);
    RemoveTidy(contents, header, c, ProfileHeader(profileName));
    var a', u, u', b' := RelinkEntries(removed, profileName, t, None);
    var d, d' := a + [s] + b, a' + [u'] + b';
    var e := Entries(d)[t];
    var e' := e.(name := CanonName(profileName), services := None);
    NoUrl();
    forall i | 0 <= i < |Entries(d)| && i != t
      ensures UrlFor(d', Entries(d)[i]) == if Follows(Entries(d)[i], Some(section)) then None else UrlFor(d, Entries(d)[i])
    {
      var p := Entries(d)[i];
      if p.services.Some? {
        var k := Lower(p.services.value);
        RelinkEndpoints(a', u, u', b', k);
        EndpointsOfConcat(a, b, k);
        if k == Lower(section) {
          OnlySessions(contents, profileName, t, section, i);
        } else {
          EndpointsOfThree(a, s, b, k);
          ServicesForOne(s, Lower(section), k);
          assert EndpointsOf(a, k) + [] == EndpointsOf(a, k);
        }
      }
    }
    OutcomeFrom(d, d', t, e', None, Some(section));
  }

  // ---------------------------------------------------------------------
  // The main theorem
  // ---------------------------------------------------------------------

  /** The body of the section the profile refers to, or nothing. */
  function ReferencedBody(contents: string, section: string): string {
    match SectionRaw(contents, ServicesHeader(section))
    case None => ""
    case Some(raw) => BodyText(raw)
  }

  /** What the editor asks of a file it works on: it is well-formed, and the target's
      section is tidy. */
  predicate Editable(contents: string, profileName: string, url: Option<string>) {
    WellFormed(contents) && TidyTarget(contents, profileName) && (url.Some? ==> OneLine(url.value))
  }

  lemma {:induction false} KeyValueGood(l: string)
    requires OneLine(l) && KeyValue(l).Some?
    ensures Trimmed(KeyValue(l).value.1) && OneLine(KeyValue(l).value.1)
  {
    hide Trim, Lower, IndexOf;
    TrimTrimmed(l[IndexOf(l, '=') + 1..]);
  }

  lemma {:induction false} KeysGood(body: seq<string>)
    requires forall k | 0 <= k < |body| :: IsChunk(body[k])
    ensures forall k | k in Keys(body) :: Trimmed(Keys(body)[k]) && OneLine(Keys(body)[k])
  {
    hide Trim, KeyValue, IsChunk, OneLine, Trimmed;
    if body != [] {
      KeysGood(body[1..]);
      var c := body[0];
      ChunkTrimOneLine(c);
      if KeyValue(Trim(c)).Some? { KeyValueGood(Trim(c)); }
      var first := LineKeys(c);
      assert forall k | k in first :: Trimmed(first[k]) && OneLine(first[k]);
    }
  }

  /** A reference is read trimmed and from one line. */
  lemma {:induction false} ReferenceGood(contents: string, profileName: string, t: nat)
    requires WellFormed(contents) && TargetAt(contents, profileName, t)
    ensures var e := Entries(Doc(Chunks(contents)))[t];
            e.services.Some? && e.services.value != "" ==> GoodName(e.services.value)
  {
    hide Chunks, Doc, Entries, HeaderKind, Trim, Lower, Keys, WellFormed, ProfileHeader, HeaderIndex, BodyLength,
         IsChunk, OneLine, Trimmed;
    var cs := Chunks(contents);
    var c := LocateTarget(contents, profileName, t);
    var body := cs[c.i + 1..c.j];
    KeysGood(body);
    var e := Entries(Doc(cs))[t];
    assert e.services == Get(Keys(body), "services");
  }

  lemma {:induction false} TargetOfParse(contents: string, profileName: string)
    ensures var t := TargetIndex(Parse(contents), profileName);
            t < |Parse(contents)| ==>
              && TargetAt(contents, profileName, t)
              && Parse(contents)[t].services == Entries(Doc(Chunks(contents)))[t].services
  {
    hide Chunks, Doc, Entries, Lower, UrlOf, EndpointsOf, TargetIndex;
    var t := TargetIndex(Parse(contents), profileName);
    if t < |Parse(contents)| { ParseServices(contents, t); }
  }

  lemma {:induction false} EndpointLineOf(cs: seq<string>, open: Option<string>) returns (k: nat)
    requires Endpoints(cs, open) != []
    ensures k < |cs| && IsEndpointLine(cs[k])
    decreases |cs|
  {
    hide Trim, KeyValue, IsIndented, LineKeyValue;
    if LineEndpoints(cs[0], open) != [] {
      IndentedReads(cs[0], open);
      k := 0;
    } else {
      k := EndpointLineOf(cs[1..], NextService(cs[0], open));
      k := k + 1;
    }
  }

  /** A body with an endpoint has properties, so it is never taken for empty. */
  lemma {:induction false} EndpointIsProperty(body: string)
    requires UrlOf(Endpoints(Chunks(body), None)).Some?
    ensures HasProperties(body)
  {
    hide Chunks, Endpoints, Trim, KeyValue;
    NoUrl();
    var k := EndpointLineOf(Chunks(body), None);
    TrimLine(Chunks(body)[k]);
    assert LineKeyValue(Lines(body)[k]).Some?;
  }

  lemma {:induction false} NoUrl()
    ensures UrlOf([]) == None
  {
  }

  lemma {:induction false} UnchangedOutcome(ps: seq<ProfileInfo>, t: nat, url: Option<string>,
          section: Option<string>)
    requires t < |ps| && ps[t].endpointUrl == url
    requires forall i | 0 <= i < |ps| && Follows(ps[i], section) :: ps[i].endpointUrl == url
    ensures Outcome(ps, ps, t, url, section)
  {
    hide Follows;
  }

  /** Entries that refer to the same section report the same endpoint. */
  lemma {:induction false} SameReference(contents: string, t: nat, i: nat, section: string)
    requires t < |Parse(contents)| && i < |Parse(contents)|
    requires Parse(contents)[t].services == Some(section) && RefersTo(Parse(contents)[i], section)
    ensures Parse(contents)[i].endpointUrl == Parse(contents)[t].endpointUrl
  {
    hide Chunks, Doc, Entries, Lower, UrlOf, EndpointsOf;
    TargetUrl(contents, t);
    TargetUrl(contents, i);
    ParseServices(contents, t);
    ParseServices(contents, i);
  }

  lemma {:induction false} TargetUrl(contents: string, t: nat)
    requires t < |Entries(Doc(Chunks(contents)))|
    ensures Parse(contents)[t].endpointUrl == UrlFor(Doc(Chunks(contents)), Entries(Doc(Chunks(contents)))[t])
  {
    hide Chunks, Doc, Entries, Lower, UrlOf, EndpointsOf;
    var es := Entries(Doc(Chunks(contents)));
    EntriesUnresolved(Doc(Chunks(contents)));
    assert es[t] in es;
  }

  /** What the referenced body gives the parser, and what its edit gives. */
  lemma {:induction false} ReferencedReads(contents: string, section: string, url: Option<string>)
    requires WellFormed(contents) && (url.Some? ==> OneLine(url.value))
    ensures var body := ReferencedBody(contents, section);
            var edited := EditBody(body, url);
            && UrlOf(EndpointsOf(Doc(Chunks(contents)), Lower(section))) == UrlOf(Endpoints(Chunks(body), None))
            && UrlOf(Endpoints(Chunks(edited), None)) == ReportedAfter(body, url)
            && NoBrackets(Chunks(edited)) && (edited != body ==> EndsLine(edited))
            && (ReportedAfter(body, url).Some? ==> HasProperties(edited))
  {
    hide Chunks, Doc, Lower, ServicesHeader, NoBrackets, Endpoints, UrlOf, EndpointsOf, EditBody, ReportedAfter, Left,
         EndsLine, HasProperties, SectionOf, BodyText, IsServicesFor, Trim, HeaderIndex, BodyLength, Flatten,
         WellFormed, Keys;
    var body := ReferencedBody(contents, section);
    match SectionOf(Chunks(contents), ServicesHeader(section)) {
      case None =>
        AbsentNoEndpoints(contents, section);
        EmptyBody();
      case Some(lines) =>
        var c := LocateServices(contents, section, lines);
        LocatedText(contents, ServicesHeader(section), lines);
        var cs := Chunks(contents);
        EndpointsOfThree(Doc(cs[..c.i]), SectionFrom(cs[c.i], cs[c.i + 1..c.j]), Doc(cs[c.j..]), Lower(section));
        var es := Endpoints(Chunks(body), None);
        assert [] + es + [] == es;
    }
    assert NoBrackets(Chunks(body));
    EditBodyReads(body, url, "");
    if ReportedAfter(body, url).Some? { EndpointIsProperty(EditBody(body, url)); }
  }

  lemma {:induction false} EmptyBody()
    ensures Chunks("") == [] && Endpoints([], None) == [] && NoBrackets([])
  {
  }

  lemma {:induction false} ReportedSome(url: Option<string>)
    ensures url.Some? == Reported(url).Some?
  {
  }

  /** The section that is edited in place: the one referred to, unless it is shared. */
  function InPlace(profiles: seq<ProfileInfo>, profileName: string, section: string): Option<string> {
    if IsShared(profiles, profileName, section) then None else Some(section)
  }

  /** A blank reference that no other profile shares: the section that is written for
      it is not known to the parser. */
  predicate IsLost(profiles: seq<ProfileInfo>, profileName: string, section: string, url: Option<string>) {
    section == "" && url.Some? && !IsShared(profiles, profileName, section)
  }

  lemma {:induction false} SetReported(body: string, url: Option<string>)
    requires url.Some?
    ensures ReportedAfter(body, url) == Reported(url) && ReportedAfter(body, url).Some?
  {
  }

  /** `EditSection` on the profile's own section. */
  lemma {:induction false} EditSectionOutcome(contents: string, profileName: string, t: nat, section: string,
          url: Option<string>)
    requires WellFormed(contents) && TargetAt(contents, profileName, t) && TidyTarget(contents, profileName)
    requires Entries(Doc(Chunks(contents)))[t].services == Some(section) && t < |Parse(contents)|
    requires (url.Some? ==> OneLine(url.value)) && !IsLost(Parse(contents), profileName, section, url)
    ensures Outcome(Parse(contents), Parse(EditSection(contents, Parse(contents), profileName, section, url)), t,
                    ReportedAfter(ReferencedBody(contents, section), url), InPlace(Parse(contents), profileName, section))
  {
    hide Chunks, Doc, Entries, Lower, ServicesHeader, NoBrackets, Endpoints, UrlOf, EndpointsOf, EditBody,
         ReportedAfter, EndsLine, HasProperties, SectionOf, BodyText, WellFormed, TidyTarget, Outcome, IsShared,
         Relink, RemoveSection, ReplaceSectionBody, AppendSection, LinkNewSection, GoodName, TargetAt, Flatten, Trim,
         Parse, Follows;
    TargetIndexIn(contents, profileName, t);
    ReferencedReads(contents, section, url);
    ReferenceGood(contents, profileName, t);
    var profiles := Parse(contents);
    var body := ReferencedBody(contents, section);
    var edited := EditBody(body, url);
    var reported := ReportedAfter(body, url);
    var located := SectionOf(Chunks(contents), ServicesHeader(section));
    if edited == body {
      SameSection(contents, profileName, t, section, reported);
    } else if IsShared(profiles, profileName, section) {
      if HasProperties(edited) {
        LinkOutcome(contents, profileName, t, edited, reported);
      } else {
        UnlinkOutcome(contents, profileName, t);
      }
    } else if !HasProperties(edited) {
      if located.Some? {
        RemoveOutcome(contents, profileName, t, section, located.value);
      } else {
        NothingRemoved(url, reported, body);
      }
    } else if located.Some? {
      ReplaceOutcome(contents, profileName, t, section, located.value, edited, reported);
    } else {
      NothingRemoved(url, reported, body);
      AppendOutcome(contents, profileName, t, section, edited, reported);
    }
  }

  /** Nothing is removed from nothing. */
  lemma {:induction false} NothingRemoved(url: Option<string>, reported: Option<string>, body: string)
    requires reported == ReportedAfter(body, url)
    ensures url.None? && body == "" ==> EditBody(body, url) == body
    ensures url.Some? ==> reported.Some?
  {
    hide EditBody, ReportedAfter;
    EmptyEdit(url);
    if url.Some? { SetReported(body, url); }
  }

  /** An edit that finds nothing to do. */
  lemma {:induction false} SameSection(contents: string, profileName: string, t: nat, section: string,
          url: Option<string>)
    requires t < |Parse(contents)| && t < |Entries(Doc(Chunks(contents)))|
    requires Entries(Doc(Chunks(contents)))[t].services == Some(section)
    requires UrlOf(EndpointsOf(Doc(Chunks(contents)), Lower(section))) == url
    ensures Outcome(Parse(contents), Parse(contents), t, url, InPlace(Parse(contents), profileName, section))
  {
    hide Chunks, Doc, Entries, Lower, UrlOf, EndpointsOf, Outcome, IsShared, Parse, RefersTo;
    TargetUrl(contents, t);
    ParseServices(contents, t);
    var ps := Parse(contents);
    forall i | 0 <= i < |ps| && Follows(ps[i], InPlace(ps, profileName, section)) ensures ps[i].endpointUrl == url {
      SameReference(contents, t, i, section);
    }
    UnchangedOutcome(ps, t, url, InPlace(ps, profileName, section));
  }

  lemma {:induction false} EmptyEdit(url: Option<string>)
    ensures url.None? ==> EditBody("", url) == ""
  {
    if url.None? {
      EmptyBody();
      assert RemoveService([], "secrets_manager") == [];
      assert RemoveService([], "secrets-manager") == [];
      assert RemoveService([], "ssm") == [];
      assert Flatten([]) == "";
    }
  }

  /** What the target reports after the edit. */
  function ReportedFor(contents: string, services: Option<string>, url: Option<string>): Option<string> {
    match services
    case None => Reported(url)
    case Some(section) => ReportedAfter(ReferencedBody(contents, section), url)
  }

  /** The edit cannot do what it says: a value is set under a blank reference that no
      other profile shares, or a removal does not clear the referenced body. */
  predicate Fails(contents: string, profiles: seq<ProfileInfo>, profileName: string, services: Option<string>,
          url: Option<string>) {
    services.Some? &&
    match url
    case Some(_) => IsLost(profiles, profileName, services.value, url)
    case None => !Clears(Chunks(EndedLine(ReferencedBody(contents, services.value))))
  }

  function InPlaceOf(profiles: seq<ProfileInfo>, profileName: string, services: Option<string>): Option<string> {
    if services.None? then None else InPlace(profiles, profileName, services.value)
  }

  /** The main theorem, for every well-formed file whose target is tidy. The profile
      reports exactly the given endpoint (`Some`) or none (`None`) if and only if
      the edit does not fail. What a removal leaves otherwise is what one reading of
      the body finds, and a lost value changes nothing. In all other cases the number
      and order of entries stay, the target keeps everything but its reference, its
      endpoint and the case of its name, and every other entry is unchanged, but that
      an sso-session naming a section edited in place follows. A file without the
      profile is returned as it is. */
  lemma {:induction false} ApplyMeansWhatItSays(contents: string, profileName: string, url: Option<string>)
    requires Editable(contents, profileName, url)
    ensures var before, after := Parse(contents), Parse(Apply(contents, profileName, url));
            var t := TargetIndex(before, profileName);
            && (t == |before| ==> Apply(contents, profileName, url) == contents)
            && (t < |before| ==>
                  var services := before[t].services;
                  var lost := services.Some? && IsLost(before, profileName, services.value, url);
                  && (lost ==> after == before)
                  && (!lost ==> Outcome(before, after, t, ReportedFor(contents, services, url), InPlaceOf(before, profileName, services)))
                  && |after| == |before|
                  && (after[t].endpointUrl == Reported(url) <==> !Fails(contents, before, profileName, services, url)))
  {
    hide Chunks, Doc, Entries, Lower, NoBrackets, Endpoints, UrlOf, EndpointsOf, EditBody, ReportedAfter, Left,
         WellFormed, TidyTarget, Outcome, EditSection, LinkNewSection, TargetIndex, Parse, OneLine, EndsLine,
         HasProperties, Trim, TargetAt, ReferencedBody, Clears, InPlace;
    var before := Parse(contents);
    var t := TargetIndex(before, profileName);
    TargetOfParse(contents, profileName);
    if t < |before| {
      TargetIndexIn(contents, profileName, t);
      TargetUrl(contents, t);
      var after := Parse(Apply(contents, profileName, url));
      if before[t].services.Some? {
        var section := before[t].services.value;
        if IsLost(before, profileName, section, url) {
          LostSection(contents, profileName, t, url.value);
        } else {
          EditSectionOutcome(contents, profileName, t, section, url);
          OutcomeUrl(before, after, t, ReportedAfter(ReferencedBody(contents, section), url), InPlace(before, profileName, section));
          ReportsWhatItSays(ReferencedBody(contents, section), url);
        }
      } else if url.Some? {
        FreshBody(url.value);
        LinkOutcome(contents, profileName, t, EditBody("", url), Reported(url));
        OutcomeUrl(before, after, t, Reported(url), None);
      } else {
        NoneFollow(before);
        UnchangedOutcome(before, t, None, None);
      }
    }
  }

  lemma {:induction false} NoneFollow(ps: seq<ProfileInfo>)
    ensures forall i | 0 <= i < |ps| :: !Follows(ps[i], None)
  {
  }

  lemma {:induction false} OutcomeUrl(before: seq<ProfileInfo>, after: seq<ProfileInfo>, t: nat, url: Option<string>,
          section: Option<string>)
    requires Outcome(before, after, t, url, section)
    ensures |after| == |before| && t < |before| && after[t].endpointUrl == url
  {
  }

  lemma {:induction false} ReportsWhatItSays(body: string, url: Option<string>)
    ensures url.Some? ==> ReportedAfter(body, url) == Reported(url)
    ensures url.None? ==> (ReportedAfter(body, url) == Reported(url) <==> Clears(Chunks(EndedLine(body))))
  {
    hide Chunks, Left, UrlOf, Trim;
  }

  /** A value set under a lost reference changes nothing the parser sees. */
  lemma {:induction false} LostSection(contents: string, profileName: string, t: nat, url: string)
    requires WellFormed(contents) && TargetAt(contents, profileName, t) && OneLine(url) && t < |Parse(contents)|
    requires Parse(contents)[t].services == Some("") && !IsShared(Parse(contents), profileName, "")
    ensures Parse(EditSection(contents, Parse(contents), profileName, "", Some(url))) == Parse(contents)
    ensures EditSection(contents, Parse(contents), profileName, "", Some(url)) == AppendSection(contents, ServicesHeader(""), EditBody("", Some(url)))
    ensures Parse(contents)[t].endpointUrl == None
  {
    hide Chunks, Doc, Entries, NoBrackets, EditBody, Endpoints, UrlOf, HasProperties, IsShared, SectionOf, Reported,
         AppendSection, EndpointsOf, Lower, ServicesHeader, LinkNewSection, WellFormed, TargetAt, Parse, OneLine,
         Relink, RemoveSection, ReplaceSectionBody, BodyText;
    TargetIndexIn(contents, profileName, t);
    NoBlankSection(contents);
    FreshBody(url);
    ReportedSome(Some(url));
    var edited := EditBody("", Some(url));
    EndpointIsProperty(edited);
    NoProperties();
    BlankAppended(contents, edited);
    TargetUrl(contents, t);
    ParseServices(contents, t);
    NoUrl();
  }

  lemma {:induction false} NoProperties()
    ensures !HasProperties("")
  {
    EmptyBody();
  }

  /** All other entries are unchanged exactly if no sso-session follows to another
      endpoint. */
  lemma {:induction false} OthersUnchangedIff(contents: string, profileName: string, url: Option<string>)
    requires Editable(contents, profileName, url) && TargetIndex(Parse(contents), profileName) < |Parse(contents)|
    ensures var before, after := Parse(contents), Parse(Apply(contents, profileName, url));
            var t := TargetIndex(before, profileName);
            var services := before[t].services;
            var lost := services.Some? && IsLost(before, profileName, services.value, url);
            && |after| == |before|
            && ((forall i | 0 <= i < |before| && i != t :: after[i] == before[i]) <==>
                  || lost || before[t].endpointUrl == ReportedFor(contents, services, url)
                  || forall i | 0 <= i < |before| && i != t :: !Follows(before[i], InPlaceOf(before, profileName, services)))
  {
    hide Parse, TargetIndex, Apply, Editable, ReportedFor, IsShared, IsLost, RefersTo, Fails;
    ApplyMeansWhatItSays(contents, profileName, url);
    var before, after := Parse(contents), Parse(Apply(contents, profileName, url));
    var t := TargetIndex(before, profileName);
    var services := before[t].services;
    if !(services.Some? && IsLost(before, profileName, services.value, url)) {
      var reported, section := ReportedFor(contents, services, url), InPlaceOf(before, profileName, services);
      forall i | 0 <= i < |before| && i != t
        ensures after[i] == before[i] <==> !Follows(before[i], section) || before[t].endpointUrl == reported
      {
        assert OtherEntry(before[i], after[i], reported, section);
        if Follows(before[i], section) {
          SameReference(contents, t, i, services.value);
        }
      }
    }
  }

  /** The body written for a profile that had no section. */
  lemma {:induction false} FreshBody(url: string)
    requires OneLine(url)
    ensures var body := EditBody("", Some(url));
            NoBrackets(Chunks(body)) && UrlOf(Endpoints(Chunks(body), None)) == Reported(Some(url))
  {
    hide EditBody, Endpoints, UrlOf, Reported, Chunks, NoBrackets, ReportedAfter;
    EmptyBody();
    EditBodyReads("", Some(url), "");
    SetReported("", Some(url));
  }
}

/** What an appended section holds, and what the parser reads from it. */
module ConfigEntries {
  import opened Text
  import opened Sections
  import opened AwsParser
  import opened DocEdits
  import opened MergeWriter
  import opened ProfileWriter
  import opened ProfileKeys
  import opened ProfileFields
  import opened SectionTexts
  import opened EndpointEditor
  import opened EndpointOps
  import opened EndpointMeaning
  import opened EndpointTheorems
  import opened EndpointIdempotence
  import opened EndpointRoundTrip
  import opened HeaderCounts
  import opened ConfigAppend

  // ---------------------------------------------------------------------
  // The section
  // ---------------------------------------------------------------------

  function SectionBlock(call: Call): string {
    Header(call) + "\n" + call.body
  }

  /** The file with the section of a call at its end. */
  function Extended(existing: string, call: Call): string {
    EndedLine(existing) + Block(call)
  }

  lemma {:induction false} ExtendedParts(existing: string, call: Call)
    ensures Extended(existing, call) == EndedLine(existing) + "\n" + SectionBlock(call)
  {
    hide EndedLine, Header;
    assert Block(call) == "\n" + SectionBlock(call);
  }

  lemma {:induction false} SessionKindOf(name: string)
    requires GoodName(name)
    ensures HeaderKind(SsoSessionHeader(name)) == Some(SsoSession(name)) && CanonicalHeader(SsoSessionHeader(name))
  {
    hide Trim, Lower;
    var h, inner := SsoSessionHeader(name), "sso-session" + " " + name;
    assert h[1..|h| - 1] == inner;
    NameReads("sso-session", name);
    LongNotDefault(inner);
    assert "profile"[0] != inner[0];
    SessionLowered(name);
  }

  lemma {:induction false} SessionLowered(name: string)
    ensures !("[services " <= Lower(SsoSessionHeader(name)))
  {
    var h := SsoSessionHeader(name);
    assert Lower(h)[2] == 's' && "[services "[2] == 'e';
  }

  /** Whose section a call appends: exactly the name it was given. */
  lemma {:induction false} CallKind(call: Call)
    requires GoodName(call.name)
    ensures HeaderKind(Header(call)) == Some(if call.AppendSession? then SsoSession(call.name) else Profile(call.name))
    ensures Consistent(call) ==> CanonicalHeader(Header(call))
  {
    hide HeaderKind, GoodName, CanonicalHeader, Lower;
    match call {
      case AppendProfile(name, _, _) =>
        if name == "default" { DefaultHeaderKind(); } else { NamedHeaderKind(name); }
        if Consistent(call) {
          ConsistentHeaders(call);
          ProfileCanonical(name);
        }
      case AppendSession(name, _) => SessionKindOf(name);
    }
  }

  lemma {:induction false} SectionLines(call: Call)
    requires GoodCall(call)
    ensures var own := [Header(call) + "\n"] + Chunks(call.body);
            Chunks(SectionBlock(call)) == own && OneSection(own, Header(call)) && IsHeader(own[0]) && Trim(own[0]) == Header(call)
    ensures IsHeaderName(Header(call)) && IsBracket(Header(call) + "\n")
  {
    hide Chunks, Header, NoBrackets, GoodName, Trim, OneSection, IsHeaderName, IsBracket, IsHeader;
    var h := Header(call);
    HeaderGood(call);
    HeaderOneLine(h);
    HeaderTerminated(h);
    ChunksCons(h + "\n", call.body);
    HeadedSection(h, Chunks(call.body));
    HeaderTrims(h);
    HeaderForm(h, h + "\n");
  }

  lemma {:induction false} HeaderTrims(h: string)
    requires GoodHeader(h)
    ensures Trim(h + "\n") == h
  {
    hide Trim;
    TrimPadded("", h, "\n");
    TrimOfTrimmed(h);
    assert "" + h + "\n" == h + "\n";
  }

  lemma {:induction false} GoodCallBody(call: Call)
    requires GoodCall(call)
    ensures NoBrackets(Chunks(call.body)) && (call.AppendProfile? ==> OneLine(call.url))
  {
  }

  /** The lines of the extended file, its meaning, and its sections. */
  lemma {:induction false} ExtendedLines(existing: string, call: Call) returns (pad: string)
    requires GoodCall(call)
    ensures EndsLine(pad) && Chunks(Extended(existing, call)) == Chunks(pad) + Chunks(SectionBlock(call))
    ensures Doc(Chunks(pad)) == Doc(Chunks(existing)) && ClosedHeaders(Chunks(pad)) == ClosedHeaders(Chunks(existing))
    ensures forall h | IsHeaderName(h) :: SectionText(pad, h) == SectionText(existing, h)
  {
    hide Chunks, EndedLine, Header, GoodCall, Doc, ClosedHeaders, SectionText, IsHeaderName, SectionBlock, Extended;
    var ended := EndedLine(existing);
    pad := ended + "\n";
    ExtendedParts(existing, call);
    EndedMeaning(existing);
    EndedShape(existing);
    AddBreak(ended, '\n');
    AddBreakShape(ended, '\n');
    ChunksConcat(pad, SectionBlock(call));
    forall h | IsHeaderName(h) ensures SectionText(pad, h) == SectionText(existing, h) {
      EndedText(existing, h);
      AddBreakText(ended, '\n', h);
    }
  }

  function NewSection(call: Call): Section {
    Section(Header(call), Keys(Chunks(call.body)), Endpoints(Chunks(call.body), None))
  }

  /** The file means what it meant, and the section of the call at the end. */
  lemma {:induction false} ExtendedDoc(existing: string, call: Call)
    requires GoodCall(call)
    ensures Doc(Chunks(Extended(existing, call))) == Doc(Chunks(existing)) + [NewSection(call)]
    ensures ClosedHeaders(Chunks(existing)) ==> ClosedHeaders(Chunks(Extended(existing, call)))
  {
    hide Chunks, Header, GoodCall, Doc, ClosedHeaders, Keys, Endpoints, IsHeader, OneSection, Trim, SectionText,
         SectionBlock, Extended, NoBrackets, EndsLine, IsHeaderName, IsBracket;
    var pad := ExtendedLines(existing, call);
    SectionLines(call);
    GoodCallBody(call);
    var own := Chunks(SectionBlock(call));
    assert own[1..] == Chunks(call.body);
    BlockDoc(own);
    DocConcat(Chunks(pad), own);
    assert SectionFrom(own[0], own[1..]) == NewSection(call);
    ClosedJoin(Chunks(pad), own);
  }

  lemma {:induction false} ClosedJoin(a: seq<string>, b: seq<string>)
    requires ClosedHeaders(b)
    ensures ClosedHeaders(a) ==> ClosedHeaders(a + b)
  {
    hide IsBracket, IsHeader;
  }

  /** The section is there, word for word, and every other keeps its text. */
  lemma {:induction false} ExtendedTexts(existing: string, call: Call, other: string)
    requires GoodCall(call) && IsHeaderName(other)
    ensures !HasHeader(existing, Header(call)) ==> SectionRaw(Extended(existing, call), Header(call)) == Some(SectionBlock(call))
    ensures !EqIgnoreCase(Header(call), other) ==> SectionText(Extended(existing, call), other) == SectionText(existing, other)
  {
    hide Chunks, Header, GoodCall, Doc, ClosedHeaders, IsHeader, OneSection, Trim, SectionBlock, Extended, EndsLine,
         IsHeaderName, Lower, HasHeader, Flatten, TrimBreaks, SectionOf, IsBracket, Count;
    var pad := ExtendedLines(existing, call);
    SectionLines(call);
    var h, own := Header(call), Chunks(SectionBlock(call));
    SectionOfOne(own, h, h);
    SectionOfOne(own, h, other);
    SectionOfSplit(Chunks(pad), own, h);
    SectionOfSplit(Chunks(pad), own, other);
    HasHeaderCount(existing, h);
    CountFound(Chunks(existing), h);
    FlattenChunks(SectionBlock(call));
    assert SectionText(pad, h) == SectionText(existing, h) && SectionText(pad, other) == SectionText(existing, other);
  }

  // ---------------------------------------------------------------------
  // The entry
  // ---------------------------------------------------------------------

  /** One more entry, the last, with the keys of the body as its fields. */
  lemma {:induction false} ExtendedParse(existing: string, call: Call)
    requires GoodCall(call)
    ensures var before, after := Parse(existing), Parse(Extended(existing, call));
            && |after| == |before| + 1 && after[..|before|] == before
            && Describes(after[|before|], call.name, call.AppendSession?, Keys(Chunks(call.body)))
            && after[|before|].endpointUrl == UrlFor(Doc(Chunks(existing)), after[|before|])
  {
    hide Chunks, Header, GoodCall, Doc, Keys, Extended, Describes, EndpointsOf, HeaderKind, Resolve, ProfileFrom,
         UrlFor, Entries, Interpret, ClosedHeaders;
    ExtendedDoc(existing, call);
    GoodCallName(call);
    CallKind(call);
    var d, s := Doc(Chunks(existing)), NewSection(call);
    NewEntry(d, s, call.name, call.AppendSession?);
    FromDescribes(call.name, call.AppendSession?, s.keys, d);
    NewUrl(call.name, call.AppendSession?, s.keys, d);
  }

  lemma {:induction false} NewUrl(name: string, session: bool, keys: map<string, string>, d: seq<Section>)
    ensures var p := Resolve(ProfileFrom(name, session, keys), d);
            p.endpointUrl == UrlFor(d, p)
  {
    hide EndpointsOf, UrlOf, Lower;
    ResolveEntry(d, ProfileFrom(name, session, keys));
  }

  lemma {:induction false} NewEntry(d: seq<Section>, s: Section, name: string, session: bool)
    requires HeaderKind(s.header) == Some(if session then SsoSession(name) else Profile(name))
    ensures Interpret(d + [s]) == Interpret(d) + [Resolve(ProfileFrom(name, session, s.keys), d)]
  {
    hide HeaderKind, Entries, EndpointsOf, UrlOf, Lower, ProfileFrom;
    EntriesConcat(d, [s]);
    OneNewEntry(s, name, session);
    forall k ensures EndpointsOf(d + [s], k) == EndpointsOf(d, k) {
      EndpointsOfOne(d, s, k);
      assert !IsServicesFor(s, k);
      assert EndpointsOf(d, k) + [] == EndpointsOf(d, k);
    }
  }

  lemma {:induction false} OneNewEntry(s: Section, name: string, session: bool)
    requires HeaderKind(s.header) == Some(if session then SsoSession(name) else Profile(name))
    ensures Entries([s]) == [ProfileFrom(name, session, s.keys)]
  {
    hide HeaderKind, ProfileFrom;
    assert [s][1..] == [];
    assert Entries([s]) == EntryOf(HeaderKind(s.header), s.keys) + Entries([]);
  }

  lemma {:induction false} ExtendedForm(existing: string, call: Call)
    requires GoodCall(call) && Consistent(call) && WellFormed(existing) && !HasHeader(existing, Needle(call))
    ensures WellFormed(Extended(existing, call))
  {
    hide Chunks, Header, Needle, GoodCall, Doc, Extended, HasHeader, ClosedHeaders, DistinctHeaders, CanonicalDoc,
         CanonicalHeader, Consistent, Count, Trim, Lower, Keys, Endpoints, HeaderKind;
    ExtendedDoc(existing, call);
    GoodCallName(call);
    CallKind(call);
    ConsistentHeaders(call);
    HasHeaderCount(existing, Header(call));
    var cs := Chunks(existing);
    CountFound(cs, Header(call));
    SectionIffHeader(cs, Header(call));
    forall i | 0 <= i < |Doc(cs)| ensures !EqIgnoreCase(Doc(cs)[i].header, Header(call)) { DocHeader(cs, i); }
    AppendedDocForm(Doc(cs), NewSection(call));
  }

  // ---------------------------------------------------------------------
  // Setting the endpoint
  // ---------------------------------------------------------------------

  /** No endpoint is set. */
  predicate Bare(call: Call) {
    call.AppendSession? || call.url == ""
  }

  /** The call looks for the header it writes; if it sets an endpoint, its body is
      tidy and does not refer to a section without a name. */
  predicate Sound(call: Call) {
    && Consistent(call)
    && (!Bare(call) ==> TidyFrom(Chunks(call.body), None) && Get(Keys(Chunks(call.body)), "services") != Some(""))
  }

  lemma {:induction false} SoundIs(call: Call)
    requires Sound(call) && !Bare(call)
    ensures Consistent(call) && TidyFrom(Chunks(call.body), None) && Get(Keys(Chunks(call.body)), "services") != Some("")
  {
    hide Consistent, TidyFrom, Keys, Chunks;
  }

  /** The appended profile is the target of the edit. */
  lemma {:induction false} NewTarget(existing: string, call: Call)
    requires GoodCall(call) && Sound(call) && !Bare(call) && WellFormed(existing) && !HasHeader(existing, Needle(call))
    ensures var content := Extended(existing, call);
            && Editable(content, call.name, Some(call.url))
            && |Parse(content)| == |Parse(existing)| + 1
            && TargetIndex(Parse(content), call.name) == |Parse(existing)|
            && Parse(content)[|Parse(existing)|].services == Get(Keys(Chunks(call.body)), "services")
  {
    hide Chunks, GoodCall, Doc, Keys, Extended, HasHeader, WellFormed, Describes, TidyFrom, Consistent, Lower, UrlFor,
         Parse, Header, Needle, TargetIndex, OneLine, TidyTarget;
    var content, n := Extended(existing, call), |Parse(existing)|;
    SoundIs(call);
    GoodCallBody(call);
    ExtendedForm(existing, call);
    ExtendedParse(existing, call);
    LastDescribes(Parse(content)[n], call.name, Keys(Chunks(call.body)));
    NewTidy(existing, call);
    var t := TargetIndex(Parse(content), call.name);
    TargetFound(Parse(content), call.name, n);
    TargetOfParse(content, call.name);
    TargetInEntries(content, call.name, n);
    UniqueTarget(content, call.name, t, n);
  }

  lemma {:induction false} LastDescribes(p: ProfileInfo, name: string, keys: map<string, string>)
    requires Describes(p, name, false, keys)
    ensures IsTarget(p, name) && p.services == Get(keys, "services")
  {
    hide Lower;
    assert KEYS[5] == "services" && KEYS[5] in KEYS;
    KeyLengths("services");
    assert FieldNamed(p, "services") == p.services;
  }

  lemma {:induction false} TargetFound(ps: seq<ProfileInfo>, name: string, n: nat)
    requires n < |ps| && IsTarget(ps[n], name)
    ensures TargetIndex(ps, name) <= n
  {
    hide IsTarget, TargetIndex;
  }

  lemma {:induction false} TargetInEntries(content: string, name: string, n: nat)
    requires n < |Parse(content)| && IsTarget(Parse(content)[n], name)
    ensures TargetAt(content, name, n)
  {
    hide Chunks, Doc, Entries, Resolve;
    ParseServices(content, n);
  }

  lemma {:induction false} NewTidy(existing: string, call: Call)
    requires GoodCall(call) && Sound(call) && !Bare(call) && !HasHeader(existing, Needle(call))
    ensures TidyTarget(Extended(existing, call), call.name)
  {
    hide Chunks, Header, Needle, GoodCall, Doc, ClosedHeaders, IsHeader, OneSection, Trim, SectionBlock, Extended,
         EndsLine, IsHeaderName, Lower, HasHeader, SectionOf, Count, IsBracket, TidyFor, TrimBreaks, Flatten,
         Consistent, ProfileHeader;
    SoundIs(call);
    ConsistentHeaders(call);
    NeedleIs(call);
    var pad := ExtendedLines(existing, call);
    SectionLines(call);
    var h, own := Header(call), Chunks(SectionBlock(call));
    SectionOfOne(own, h, h);
    SectionOfSplit(Chunks(pad), own, h);
    HasHeaderCount(existing, h);
    CountFound(Chunks(existing), h);
    assert SectionText(pad, h) == SectionText(existing, h);
    assert own[1..] == Chunks(call.body);
  }

  // ---------------------------------------------------------------------
  // One call
  // ---------------------------------------------------------------------

  /** What the parser reads of the section a call appends. */
  ghost predicate HoldsCall(p: ProfileInfo, call: Call) {
    var keys := Keys(Chunks(call.body));
    && EqIgnoreCase(p.name, call.name) && (Bare(call) ==> p.name == call.name) && p.isSsoSession == call.AppendSession?
    && (forall key | key in KEYS && key != "services" :: FieldNamed(p, key) == Get(keys, key))
    && (p.isSso <==> call.AppendSession? || "sso_start_url" in keys || "sso_session" in keys)
    && (Bare(call) ==> p.services == Get(keys, "services"))
    && ("services" !in keys ==> p.endpointUrl == if Bare(call) then None else Some(Trim(call.url)))
  }

  /** What an append leaves of another entry: all of it, but for the endpoint of a
      session that shares the section of the profile. */
  predicate KeptEntry(p: ProfileInfo, q: ProfileInfo) {
    q == p.(endpointUrl := q.endpointUrl) && (!p.isSsoSession || p.services.None? ==> q == p)
  }

  /** What a call can be promised on this file. */
  predicate Promised(existing: string, call: Call) {
    Bare(call) || (Sound(call) && WellFormed(existing))
  }

  lemma {:induction false} DescribedHolds(p: ProfileInfo, call: Call, d: seq<Section>)
    requires Bare(call) && Describes(p, call.name, call.AppendSession?, Keys(Chunks(call.body))) && p.endpointUrl == UrlFor(d, p)
    ensures HoldsCall(p, call)
  {
    hide Chunks, Keys, EndpointsOf, UrlOf, Lower;
    assert KEYS[5] == "services" && KEYS[5] in KEYS;
    KeyLengths("services");
    assert FieldNamed(p, "services") == p.services;
  }

  lemma {:induction false} EditedHolds(p: ProfileInfo, q: ProfileInfo, call: Call)
    requires !Bare(call) && Describes(p, call.name, call.AppendSession?, Keys(Chunks(call.body)))
    requires EditedEntry(p, q, Some(Trim(call.url)))
    ensures HoldsCall(q, call)
  {
    hide Chunks, Keys, Lower, Trim;
    forall key | key in KEYS && key != "services" ensures FieldNamed(q, key) == FieldNamed(p, key) { KeyLengths(key); }
  }

  /** Setting the endpoint of the appended profile. */
  lemma {:induction false} EndpointHolds(existing: string, call: Call)
    requires GoodCall(call) && Sound(call) && !Bare(call) && WellFormed(existing) && !HasHeader(existing, Needle(call))
    ensures var before, after := Parse(existing), Parse(Apply(Extended(existing, call), call.name, Some(call.url)));
            && |after| == |before| + 1 && HoldsCall(after[|before|], call)
            && (forall i | 0 <= i < |before| :: KeptEntry(before[i], after[i]))
    ensures WellFormed(Apply(Extended(existing, call), call.name, Some(call.url)))
  {
    hide Chunks, GoodCall, Doc, Keys, Extended, HasHeader, WellFormed, Describes, TidyFrom, Consistent, Lower, UrlFor,
         Parse, Header, Needle, TargetIndex, Editable, Apply, HoldsCall, EditedEntry, ReferencedBody, ReportedAfter,
         IsShared, Trim, InPlaceOf, Fails, Reported;
    var content, n := Extended(existing, call), |Parse(existing)|;
    SoundIs(call);
    NewTarget(existing, call);
    ExtendedParse(existing, call);
    ApplyMeansWhatItSays(content, call.name, Some(call.url));
    ApplyKeepsWellFormed(content, call.name, Some(call.url));
    var before, after := Parse(content), Parse(Apply(content, call.name, Some(call.url)));
    var services := before[n].services;
    SetUrl(content, services, call.url);
    EditedHolds(before[n], after[n], call);
    forall i | 0 <= i < n ensures KeptEntry(Parse(existing)[i], after[i]) {
      assert Parse(existing)[i] == before[i];
      OtherIsKept(before[i], after[i], Some(Trim(call.url)), InPlaceOf(before, call.name, services));
    }
  }

  lemma {:induction false} SetUrl(contents: string, services: Option<string>, url: string)
    ensures ReportedFor(contents, services, Some(url)) == Some(Trim(url))
  {
    hide Trim, ReferencedBody;
  }

  lemma {:induction false} OtherIsKept(p: ProfileInfo, q: ProfileInfo, url: Option<string>, section: Option<string>)
    requires OtherEntry(p, q, url, section)
    ensures KeptEntry(p, q)
  {
    hide EqIgnoreCase;
  }

  /** A call that finds its header changes nothing. Any other adds one entry at the
      end, with what its body gives each field and the endpoint it was given, and
      leaves the other entries. */
  lemma {:induction false} AppendedHolds(existing: string, call: Call)
    requires GoodCall(call) && Promised(existing, call)
    ensures var (content, appended) := Transform(existing, call);
            var before, after := Parse(existing), Parse(content);
            && (appended <==> !HasHeader(existing, Needle(call)))
            && (!appended ==> content == existing)
            && (appended ==>
                  && |after| == |before| + 1 && HoldsCall(after[|before|], call)
                  && (forall i | 0 <= i < |before| :: KeptEntry(before[i], after[i])))
            && (Sound(call) && WellFormed(existing) ==> WellFormed(content))
  {
    hide Chunks, GoodCall, Doc, Keys, HasHeader, WellFormed, Describes, TidyFrom, Consistent, Lower, UrlFor, Parse,
         Header, Needle, Apply, HoldsCall, Trim, EndedLine, Block;
    if !HasHeader(existing, Needle(call)) {
      if Bare(call) {
        ExtendedParse(existing, call);
        DescribedHolds(Parse(Extended(existing, call))[|Parse(existing)|], call, Doc(Chunks(existing)));
        PrefixKept(Parse(existing), Parse(Extended(existing, call)));
        if Sound(call) && WellFormed(existing) { ExtendedForm(existing, call); }
      } else {
        EndpointHolds(existing, call);
      }
    }
  }

  lemma {:induction false} PrefixKept(before: seq<ProfileInfo>, after: seq<ProfileInfo>)
    requires |before| <= |after| && after[..|before|] == before
    ensures forall i | 0 <= i < |before| :: KeptEntry(before[i], after[i])
  {
    forall i | 0 <= i < |before| ensures before[i] == after[i] { assert after[..|before|][i] == after[i]; }
  }

  /** A call without an endpoint keeps the text of the file, and its section holds its
      body word for word. */
  lemma {:induction false} AppendedText(existing: string, call: Call)
    requires GoodCall(call) && Bare(call) && !HasHeader(existing, Needle(call))
    ensures var content := Transform(existing, call).0;
            && existing <= content
            && (Consistent(call) ==> SectionRaw(content, Header(call)) == Some(Header(call) + "\n" + call.body))
            && (forall other | IsHeaderName(other) && !EqIgnoreCase(Header(call), other) ::
                  SectionText(content, other) == SectionText(existing, other))
  {
    hide Chunks, Header, Needle, GoodCall, HasHeader, IsHeaderName, Apply, EqIgnoreCase, SectionRaw, SectionText,
         Consistent;
    assert Transform(existing, call).0 == Extended(existing, call);
    if Consistent(call) {
      ConsistentHeaders(call);
      SectionLines(call);
      ExtendedTexts(existing, call, Header(call));
    }
    forall other | IsHeaderName(other) && !EqIgnoreCase(Header(call), other)
      ensures SectionText(Extended(existing, call), other) == SectionText(existing, other)
    {
      ExtendedTexts(existing, call, other);
    }
  }

  // ---------------------------------------------------------------------
  // Calls one after another
  // ---------------------------------------------------------------------

  /** The calls that appended, in order. */
  function Taken(calls: seq<Call>, results: seq<bool>): seq<Call>
    requires |calls| == |results|
  {
    if calls == [] then [] else
      var n := |calls| - 1;
      Taken(calls[..n], results[..n]) + if results[n] then [calls[n]] else []
  }

  /** One entry more for each call that appended, in their order, each as its call says;
      the entries before are kept. */
  ghost predicate Holds(before: seq<ProfileInfo>, after: seq<ProfileInfo>, taken: seq<Call>) {
    && |after| == |before| + |taken|
    && (forall i | 0 <= i < |before| :: KeptEntry(before[i], after[i]))
    && (forall j | 0 <= j < |taken| :: HoldsCall(after[|before| + j], taken[j]))
  }

  ghost predicate AllPromised(initial: string, calls: seq<Call>) {
    || (forall k | 0 <= k < |calls| :: Bare(calls[k]))
    || (WellFormed(initial) && forall k | 0 <= k < |calls| :: Sound(calls[k]))
  }

  lemma {:induction false} KeptTwice(p: ProfileInfo, q: ProfileInfo, r: ProfileInfo)
    requires KeptEntry(p, q) && KeptEntry(q, r)
    ensures KeptEntry(p, r)
  {
  }

  lemma {:induction false} KeptHolds(p: ProfileInfo, q: ProfileInfo, call: Call)
    requires HoldsCall(p, call) && KeptEntry(p, q)
    ensures HoldsCall(q, call)
  {
    hide Chunks, Keys, Lower, Trim;
    assert forall key :: FieldNamed(q, key) == FieldNamed(p, key);
  }

  lemma {:induction false} HoldsMore(before: seq<ProfileInfo>, mid: seq<ProfileInfo>, after: seq<ProfileInfo>,
          taken: seq<Call>, call: Call)
    requires Holds(before, mid, taken) && |after| == |mid| + 1 && HoldsCall(after[|mid|], call)
    requires forall i | 0 <= i < |mid| :: KeptEntry(mid[i], after[i])
    ensures Holds(before, after, taken + [call])
  {
    hide HoldsCall, KeptEntry;
    forall i | 0 <= i < |before| ensures KeptEntry(before[i], after[i]) { KeptTwice(before[i], mid[i], after[i]); }
    var all := taken + [call];
    forall j | 0 <= j < |all| ensures HoldsCall(after[|before| + j], all[j]) {
      if j < |taken| { KeptHolds(mid[|before| + j], after[|before| + j], taken[j]); }
    }
  }

  lemma {:induction false} HoldsNone(before: seq<ProfileInfo>)
    ensures Holds(before, before, [])
  {
  }

  /** Calls in any order: the file has the entries it had and one for each call that
      returned true. */
  lemma {:induction false} SerialHolds(initial: string, calls: seq<Call>)
    requires AllGood(calls) && AllPromised(initial, calls)
    ensures var (content, results) := Serial(initial, calls);
            && |results| == |calls|
            && Holds(Parse(initial), Parse(content), Taken(calls, results))
            && (WellFormed(initial) && (forall k | 0 <= k < |calls| :: Sound(calls[k])) ==> WellFormed(content))
    decreases |calls|
  {
    hide GoodCall, Transform, Sound, Bare, WellFormed, Parse, Holds, HasHeader, Needle, KeptEntry, HoldsCall;
    if calls == [] {
      HoldsNone(Parse(initial));
    } else {
      var n := |calls| - 1;
      var init, call := calls[..n], calls[n];
      SerialHolds(initial, init);
      SerialLength(initial, init);
      var (content, results) := Serial(initial, init);
      var (content', appended) := Transform(content, call);
      assert GoodCall(call);
      AppendedHolds(content, call);
      var all := results + [appended];
      assert all[..n] == results;
      var taken := Taken(init, results);
      assert Taken(calls, all) == taken + if appended then [call] else [];
      if appended {
        HoldsMore(Parse(initial), Parse(content), Parse(content'), taken, call);
      } else {
        assert taken + [] == taken;
      }
    }
  }

  // ---------------------------------------------------------------------
  // The three callers
  // ---------------------------------------------------------------------

  function FieldLine(f: (string, string)): string {
    f.0 + " = " + f.1 + "\n"
  }

  function Body(fields: seq<(string, string)>): string {
    if fields == [] then "" else FieldLine(fields[0]) + Body(fields[1..])
  }

  function Values(fields: seq<(string, string)>): map<string, string> {
    if fields == [] then map[] else map[fields[0].0 := Trim(fields[0].1)] + Values(fields[1..])
  }

  /** Keys the parser knows, none of them a reference, with values of one line. */
  predicate PlainFields(fields: seq<(string, string)>) {
    forall i | 0 <= i < |fields| :: fields[i].0 in KEYS && fields[i].0 != "services" && OneLine(fields[i].1)
  }

  /** `append_aws_sso_profile`. */
  function SsoProfile(name: string, startUrl: string, ssoRegion: string, accountId: string, roleName: string,
          region: string, url: string): Call
  {
    AppendProfile(name, Body([("sso_start_url", startUrl), ("sso_region", ssoRegion), ("sso_account_id", accountId),
                              ("sso_role_name", roleName), ("region", region)]), url)
  }

  /** `append_aws_shared_credentials_profile`. */
  function SharedProfile(name: string, region: string, url: string): Call {
    AppendProfile(name, Body([("region", region)]), url)
  }

  /** `append_aws_sso_session_profile`. */
  function SsoSessionCall(name: string, startUrl: string, ssoRegion: string): Call {
    AppendSession(name, Body([("sso_start_url", startUrl), ("sso_region", ssoRegion)]))
  }

  lemma {:induction false} FirstKept(l: string)
    requires l != "" && !IsWhitespace(l[0])
    ensures Trim(l) != "" && Trim(l)[0] == l[0]
  {
    hide Trim, IsWhitespace;
    var a, b := TrimSplit(l);
  }

  lemma {:induction false} FieldLineValue(key: string, value: string)
    requires GoodKey(key)
    ensures KeyValue(FieldLine((key, value))) == Some((key, Trim(value)))
  {
    hide Lower, KeyValue, Trim;
    var a, b := TrimSplit(value);
    KeyValueOf("", key, " ", " " + a, Trim(value), b + "\n");
    assert FieldLine((key, value)) == "" + key + " " + "=" + (" " + a + Trim(value) + (b + "\n"));
  }

  lemma {:induction false} FieldLineReads(key: string, value: string)
    requires key in KEYS && OneLine(value)
    ensures var l := FieldLine((key, value));
            && Terminated(l) && !IsBracket(l) && !IsIndented(l) && Trim(l) != ""
            && LineKeys(l) == map[key := Trim(value)] && KeyValue(Trim(l)).Some?
  {
    hide Lower, KeyValue, Trim;
    var l := FieldLine((key, value));
    KeyIsGood(key);
    KeyIsVisible(key);
    FieldLineValue(key, value);
    KeyValueTrim(l);
    assert l[0] == key[0];
    FirstKept(l);
  }

  /** The lines of a body, and what they say. */
  lemma {:induction false} BodyReads(fields: seq<(string, string)>, owner: Option<string>)
    requires PlainFields(fields)
    ensures NoBrackets(Chunks(Body(fields))) && EndsLine(Body(fields))
    ensures Keys(Chunks(Body(fields))) == Values(fields) && TidyFrom(Chunks(Body(fields)), owner)
    ensures "services" !in Values(fields)
    decreases |fields|
  {
    hide Chunks, Trim, IsBracket, KeyValue, LineKeys, FieldLine, Terminated, OneLine, IsIndented;
    if fields == [] {
      EmptyBody();
    } else {
      var (key, value) := fields[0];
      var l, rest := FieldLine((key, value)), Body(fields[1..]);
      FieldLineReads(key, value);
      BodyReads(fields[1..], Some(KeyValue(Trim(l)).value.0));
      LastEnds(l, rest);
      ChunksCons(l, rest);
      var cs := [l] + Chunks(rest);
      assert cs[1..] == Chunks(rest);
    }
  }

  lemma {:induction false} LastEnds(l: string, rest: string)
    requires Terminated(l) && EndsLine(rest)
    ensures IsChunk(l) && EndsLine(l + rest)
  {
  }

  /** The calls with such bodies are as the laws ask. */
  lemma {:induction false} PlainCall(call: Call, fields: seq<(string, string)>)
    requires GoodName(call.name) && Consistent(call) && call.body == Body(fields) && PlainFields(fields)
    requires call.AppendProfile? ==> OneLine(call.url)
    ensures GoodCall(call) && Sound(call) && Keys(Chunks(call.body)) == Values(fields)
    ensures "services" !in Values(fields)
  {
    hide GoodName, Consistent, OneLine, NoBrackets, Chunks, Keys, TidyFrom, EndsLine, Values, Body, PlainFields;
    BodyReads(fields, None);
  }

  lemma {:induction false} PlainHolds(existing: string, call: Call, fields: seq<(string, string)>)
    requires GoodName(call.name) && Consistent(call) && call.body == Body(fields) && PlainFields(fields)
    requires call.AppendProfile? ==> OneLine(call.url)
    requires !HasHeader(existing, Needle(call)) && (Bare(call) || WellFormed(existing))
    ensures var before, after := Parse(existing), Parse(Transform(existing, call).0);
            && |after| == |before| + 1 && (forall i | 0 <= i < |before| :: KeptEntry(before[i], after[i]))
            && var p := after[|before|];
            && EqIgnoreCase(p.name, call.name) && p.isSsoSession == call.AppendSession?
            && (forall key | key in KEYS && key != "services" :: FieldNamed(p, key) == Get(Values(fields), key))
            && (p.isSso <==> call.AppendSession? || "sso_start_url" in Values(fields) || "sso_session" in Values(fields))
            && p.endpointUrl == if Bare(call) then None else Some(Trim(call.url))
  {
    hide GoodName, Consistent, OneLine, NoBrackets, Chunks, Keys, EndsLine, Values, Body, PlainFields, GoodCall,
         Sound, Transform, Parse, HasHeader, WellFormed, Needle, EqIgnoreCase, Trim;
    PlainCall(call, fields);
    AppendedHolds(existing, call);
  }

  /** `append_aws_sso_profile`: the profile has exactly these fields and this endpoint. */
  lemma {:induction false} SsoProfileHolds(existing: string, name: string, startUrl: string, ssoRegion: string,
          accountId: string, roleName: string, region: string, url: string)
    requires GoodName(name) && Consistent(AppendProfile(name, "", url)) && OneLine(url)
    requires OneLine(startUrl) && OneLine(ssoRegion) && OneLine(accountId) && OneLine(roleName) && OneLine(region)
    requires !HasHeader(existing, ProfileHeader(name)) && (url == "" || WellFormed(existing))
    ensures var before := Parse(existing);
            var call := SsoProfile(name, startUrl, ssoRegion, accountId, roleName, region, url);
            var after := Parse(Transform(existing, call).0);
            && |after| == |before| + 1 && (forall i | 0 <= i < |before| :: KeptEntry(before[i], after[i]))
            && var p := after[|before|];
            && EqIgnoreCase(p.name, name) && !p.isSsoSession && p.isSso
            && p.ssoStartUrl == Some(Trim(startUrl)) && p.ssoRegion == Some(Trim(ssoRegion)) && p.region == Some(Trim(region))
            && p.ssoAccountId == Some(Trim(accountId)) && p.ssoRoleName == Some(Trim(roleName)) && p.ssoSession == None
            && p.endpointUrl == if url == "" then None else Some(Trim(url))
  {
    hide GoodName, OneLine, Transform, Parse, HasHeader, WellFormed, EqIgnoreCase, Trim, ProfileHeader, Body,
         KeptEntry, Get;
    var fields := [("sso_start_url", startUrl), ("sso_region", ssoRegion), ("sso_account_id", accountId),
                   ("sso_role_name", roleName), ("region", region)];
    var call := SsoProfile(name, startUrl, ssoRegion, accountId, roleName, region, url);
    KeysIn();
    PlainHolds(existing, call, fields);
    SsoValues(startUrl, ssoRegion, accountId, roleName, region);
    FieldsOf(Parse(Transform(existing, call).0)[|Parse(existing)|], Values(fields));
  }

  lemma {:induction false} KeysIn()
    ensures "region" in KEYS && "sso_start_url" in KEYS && "sso_region" in KEYS && "sso_account_id" in KEYS
    ensures "sso_role_name" in KEYS && "sso_session" in KEYS
    ensures "region" != "services" && "sso_start_url" != "services" && "sso_region" != "services"
    ensures "sso_account_id" != "services" && "sso_role_name" != "services" && "sso_session" != "services"
  {
    assert KEYS[0] == "region" && KEYS[1] == "sso_start_url" && KEYS[2] == "sso_region" && KEYS[3] == "sso_account_id";
    assert KEYS[4] == "sso_role_name" && KEYS[6] == "sso_session";
    KeyLengths("region");
  }

  lemma {:induction false} FieldsOf(p: ProfileInfo, keys: map<string, string>)
    requires forall key | key in KEYS && key != "services" :: FieldNamed(p, key) == Get(keys, key)
    ensures p.region == Get(keys, "region") && p.ssoStartUrl == Get(keys, "sso_start_url")
    ensures p.ssoRegion == Get(keys, "sso_region") && p.ssoAccountId == Get(keys, "sso_account_id")
    ensures p.ssoRoleName == Get(keys, "sso_role_name") && p.ssoSession == Get(keys, "sso_session")
  {
    hide Get;
    KeysIn();
    KeyLengths("region");
    assert FieldNamed(p, "region") == p.region && FieldNamed(p, "sso_start_url") == p.ssoStartUrl;
    assert FieldNamed(p, "sso_region") == p.ssoRegion && FieldNamed(p, "sso_account_id") == p.ssoAccountId;
    assert FieldNamed(p, "sso_role_name") == p.ssoRoleName && FieldNamed(p, "sso_session") == p.ssoSession;
  }

  lemma {:induction false} SsoValues(startUrl: string, ssoRegion: string, accountId: string, roleName: string,
          region: string)
    ensures var keys := Values([("sso_start_url", startUrl), ("sso_region", ssoRegion), ("sso_account_id", accountId),
                                ("sso_role_name", roleName), ("region", region)]);
            && Get(keys, "sso_start_url") == Some(Trim(startUrl)) && Get(keys, "sso_region") == Some(Trim(ssoRegion))
            && Get(keys, "sso_account_id") == Some(Trim(accountId)) && Get(keys, "sso_role_name") == Some(Trim(roleName))
            && Get(keys, "region") == Some(Trim(region)) && Get(keys, "sso_session") == None && "sso_start_url" in keys
  {
    hide Trim, Values, Get;
    KeysIn();
    KeyLengths("region");
    var fields := [("sso_start_url", startUrl), ("sso_region", ssoRegion), ("sso_account_id", accountId),
                   ("sso_role_name", roleName), ("region", region)];
    ValueAt(fields, 0);
    ValueAt(fields, 1);
    ValueAt(fields, 2);
    ValueAt(fields, 3);
    ValueAt(fields, 4);
    NoValue(fields, "sso_session");
    GotKey(Values(fields), "sso_start_url");
  }

  lemma {:induction false} GotKey(keys: map<string, string>, key: string)
    ensures Get(keys, key).Some? <==> key in keys
  {
  }

  lemma {:induction false} ValueAt(fields: seq<(string, string)>, i: nat)
    requires i < |fields| && forall j | i < j < |fields| :: fields[j].0 != fields[i].0
    ensures Get(Values(fields), fields[i].0) == Some(Trim(fields[i].1))
    decreases |fields|
  {
    hide Trim;
    if i > 0 {
      ValueAt(fields[1..], i - 1);
    } else {
      NoValue(fields[1..], fields[0].0);
    }
  }

  lemma {:induction false} NoValue(fields: seq<(string, string)>, key: string)
    requires forall j | 0 <= j < |fields| :: fields[j].0 != key
    ensures Get(Values(fields), key) == None
    decreases |fields|
  {
    hide Trim;
    if fields != [] { NoValue(fields[1..], key); }
  }

  lemma {:induction false} ValuesCons(f: (string, string), fields: seq<(string, string)>)
    ensures Values([f] + fields) == map[f.0 := Trim(f.1)] + Values(fields)
  {
    assert ([f] + fields)[1..] == fields;
  }

  /** `append_aws_shared_credentials_profile`: only the region, and the endpoint. */
  lemma {:induction false} SharedProfileHolds(existing: string, name: string, region: string, url: string)
    requires GoodName(name) && Consistent(AppendProfile(name, "", url)) && OneLine(region) && OneLine(url)
    requires !HasHeader(existing, ProfileHeader(name)) && (url == "" || WellFormed(existing))
    ensures var before, after := Parse(existing), Parse(Transform(existing, SharedProfile(name, region, url)).0);
            && |after| == |before| + 1 && (forall i | 0 <= i < |before| :: KeptEntry(before[i], after[i]))
            && var p := after[|before|];
            && EqIgnoreCase(p.name, name) && !p.isSsoSession && !p.isSso && p.region == Some(Trim(region))
            && p.ssoStartUrl == p.ssoRegion == p.ssoAccountId == p.ssoRoleName == p.ssoSession == None
            && p.endpointUrl == if url == "" then None else Some(Trim(url))
  {
    hide GoodName, OneLine, Transform, Parse, HasHeader, WellFormed, EqIgnoreCase, Trim, ProfileHeader, Body,
         KeptEntry;
    var fields := [("region", region)];
    var call := SharedProfile(name, region, url);
    KeysIn();
    PlainHolds(existing, call, fields);
    ValuesCons(("region", region), []);
    assert fields == [("region", region)] + [];
    FieldsOf(Parse(Transform(existing, call).0)[|Parse(existing)|], Values(fields));
    KeyLengths("region");
  }

  /** `append_aws_sso_session_profile`. */
  lemma {:induction false} SsoSessionHolds(existing: string, name: string, startUrl: string, ssoRegion: string)
    requires GoodName(name) && OneLine(startUrl) && OneLine(ssoRegion) && !HasHeader(existing, SsoSessionHeader(name))
    ensures var before, after := Parse(existing), Parse(Transform(existing, SsoSessionCall(name, startUrl, ssoRegion)).0);
            && |after| == |before| + 1 && (forall i | 0 <= i < |before| :: KeptEntry(before[i], after[i]))
            && var p := after[|before|];
            && EqIgnoreCase(p.name, name) && p.isSsoSession && p.isSso && p.endpointUrl == None
            && p.ssoStartUrl == Some(Trim(startUrl)) && p.ssoRegion == Some(Trim(ssoRegion))
            && p.region == p.ssoAccountId == p.ssoRoleName == p.ssoSession == None
  {
    hide GoodName, OneLine, Transform, Parse, HasHeader, WellFormed, EqIgnoreCase, Trim, Body, KeptEntry;
    var a, b := ("sso_start_url", startUrl), ("sso_region", ssoRegion);
    var fields := [a, b];
    var call := SsoSessionCall(name, startUrl, ssoRegion);
    KeysIn();
    PlainHolds(existing, call, fields);
    ValuesCons(a, [b]);
    ValuesCons(b, []);
    assert [b] == [b] + [] && fields == [a] + [b];
    FieldsOf(Parse(Transform(existing, call).0)[|Parse(existing)|], Values(fields));
    KeyLengths("region");
  }
}

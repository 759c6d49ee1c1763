/** The endpoint editor means what it says: after an edit the parser reports the
    given endpoint for the profile, and every other profile as before. */
module EndpointMeaning {
  import opened Text
  import opened Sections
  import opened AwsParser
  import opened DocEdits
  import opened MergeWriter
  import opened ProfileWriter
  import opened ProfileKeys
  import opened EndpointEditor
  import opened EndpointOps
  import Decimal

  // ---------------------------------------------------------------------
  // Well-formed files
  // ---------------------------------------------------------------------

  /** The header is spelled as the locator looks for it: one space and, for the
      default profile, `[default]`. A `[services ...]` header in another case or
      without a name, which only the locator would accept, is excluded. */
  predicate CanonicalHeader(header: string) {
    match HeaderKind(header)
    case Some(Profile(n)) => EqIgnoreCase(header, ProfileHeader(n))
    case Some(Services(n)) => EqIgnoreCase(header, ServicesHeader(n))
    case _ => !("[services " <= Lower(header))
  }

  /** No two sections have the same header, ignoring case. */
  predicate DistinctHeaders(doc: seq<Section>) {
    forall i, j | 0 <= i < j < |doc| :: Lower(doc[i].header) != Lower(doc[j].header)
  }

  predicate CanonicalDoc(doc: seq<Section>) {
    forall i | 0 <= i < |doc| :: CanonicalHeader(doc[i].header)
  }

  predicate WellFormed(contents: string) {
    var cs := Chunks(contents);
    ClosedHeaders(cs) && DistinctHeaders(Doc(cs)) && CanonicalDoc(Doc(cs))
  }

  // ---------------------------------------------------------------------
  // Entries and the sections they come from
  // ---------------------------------------------------------------------

  /** The section an entry comes from. */
  lemma {:induction false} EntrySection(doc: seq<Section>, t: nat) returns (d: nat)
    requires t < |Entries(doc)|
    ensures d < |doc| && |Entries(doc[..d])| == t
    ensures EntryOf(HeaderKind(doc[d].header), doc[d].keys) == [Entries(doc)[t]]
  {
    hide EntryOf, HeaderKind;
    var first := EntryOf(HeaderKind(doc[0].header), doc[0].keys);
    OneEntry(HeaderKind(doc[0].header), doc[0].keys);
    if t < |first| {
      d := 0;
      assert doc[..0] == [];
    } else {
      var d' := EntrySection(doc[1..], t - |first|);
      d := d' + 1;
      assert doc[..d] == [doc[0]] + doc[1..][..d'];
      assert doc[..d][0] == doc[0] && doc[..d][1..] == doc[1..][..d'];
    }
  }

  lemma {:induction false} OneEntry(kind: Option<SectionKind>, keys: map<string, string>)
    ensures |EntryOf(kind, keys)| <= 1
  {
  }

  lemma {:induction false} EntryKind(kind: Option<SectionKind>, keys: map<string, string>, e: ProfileInfo)
    requires EntryOf(kind, keys) == [e] && !e.isSsoSession
    ensures kind == Some(Profile(e.name)) && e == ProfileFrom(e.name, false, keys)
  {
  }

  lemma {:induction false} DocHeader(cs: seq<string>, d: nat)
    requires d < |Doc(cs)|
    ensures exists c | c in cs :: Trim(c) == Doc(cs)[d].header
    decreases |cs|
  {
    hide Trim, IsHeader, Keys, Endpoints, PlainLength;
    if IsHeader(cs[0]) {
      var n := PlainLength(cs[1..]);
      if d == 0 {
        assert cs[0] in cs;
      } else {
        DocHeader(cs[1 + n..], d - 1);
        var c :| c in cs[1 + n..] && Trim(c) == Doc(cs[1 + n..])[d - 1].header;
        assert c in cs;
      }
    } else {
      DocHeader(cs[1..], d);
      var c :| c in cs[1..] && Trim(c) == Doc(cs[1..])[d].header;
      assert c in cs;
    }
  }

  lemma {:induction false} LowerProfileHeader(a: string, b: string)
    requires EqIgnoreCase(a, b)
    ensures EqIgnoreCase(ProfileHeader(a), ProfileHeader(b))
  {
    hide Lower;
    LowerConcat("[profile " + a, "]");
    LowerConcat("[profile " + b, "]");
    LowerConcat("[profile ", a);
    LowerConcat("[profile ", b);
  }

  /** The profile the editor works on is the section its locator finds. */
  lemma {:induction false} LocateTarget(contents: string, profileName: string, t: nat) returns (c: Cut)
    requires WellFormed(contents)
    requires t < |Entries(Doc(Chunks(contents)))| && IsTarget(Entries(Doc(Chunks(contents)))[t], profileName)
    ensures CutAt(Chunks(contents), ProfileHeader(profileName), c)
    ensures var cs := Chunks(contents);
            var e := Entries(Doc(cs))[t];
            && c.i < c.j <= |cs|
            && |Entries(Doc(cs[..c.i]))| == t
            && HeaderKind(Trim(cs[c.i])) == Some(Profile(e.name))
            && e == ProfileFrom(e.name, false, Keys(cs[c.i + 1..c.j]))
            && Doc(cs) == Doc(cs[..c.i]) + [SectionFrom(cs[c.i], cs[c.i + 1..c.j])] + Doc(cs[c.j..])
  {
    hide Chunks, Doc, Trim, Lower, EntryOf, HeaderKind, Keys, Endpoints, Entries, HeaderIndex, BodyLength,
         ProfileHeader, ClosedHeaders, ProfileFrom, SectionOf, CanonicalDoc;
    var cs := Chunks(contents);
    var doc := Doc(cs);
    var e := Entries(doc)[t];
    var d := EntrySection(doc, t);
    EntryKind(HeaderKind(doc[d].header), doc[d].keys, e);
    CanonicalProfile(doc, d, e.name);
    LowerProfileHeader(e.name, profileName);
    var header := ProfileHeader(profileName);
    DocHeader(cs, d);
    SectionIffHeader(cs, header);
    c := CutOf(cs, header, SectionOf(cs, header).value);
    ProfileHeaderName(profileName);
    DocAroundSection(cs, header, c.i, c.j);
    HeaderIndexAt(cs, header);
    SamePlace(doc, Doc(cs[..c.i]), SectionFrom(cs[c.i], cs[c.i + 1..c.j]), Doc(cs[c.j..]), d);
  }

  lemma {:induction false} CanonicalProfile(doc: seq<Section>, d: nat, name: string)
    requires CanonicalDoc(doc) && d < |doc| && HeaderKind(doc[d].header) == Some(Profile(name))
    ensures EqIgnoreCase(doc[d].header, ProfileHeader(name))
  {
    hide HeaderKind, ProfileHeader, Lower;
    assert CanonicalHeader(doc[d].header);
  }

  lemma {:induction false} ProfileHeaderName(name: string)
    ensures IsHeaderName(ProfileHeader(name))
  {
  }

  lemma {:induction false} SamePlace(doc: seq<Section>, a: seq<Section>, s: Section, b: seq<Section>, d: nat)
    requires doc == a + [s] + b && DistinctHeaders(doc) && d < |doc| && Lower(s.header) == Lower(doc[d].header)
    ensures d == |a| && doc[d] == s && doc[..d] == a
  {
    hide Lower;
    assert doc[|a|] == s;
    assert doc[..|a|] == a;
  }

  // ---------------------------------------------------------------------
  // Endpoints of a name
  // ---------------------------------------------------------------------

  lemma {:induction false} ServicesForNamed(s: Section, name: string)
    requires CanonicalHeader(s.header) && IsServicesFor(s, Lower(name))
    ensures EqIgnoreCase(s.header, ServicesHeader(name))
  {
    hide HeaderKind, Lower, ServicesHeader, ProfileHeader;
    LowerServicesHeader(HeaderKind(s.header).value.name, name);
  }

  /** A canonical section with the header of a name is that name's section. */
  lemma {:induction false} NamedServicesFor(s: Section, name: string)
    requires CanonicalHeader(s.header) && EqIgnoreCase(s.header, ServicesHeader(name))
    ensures IsServicesFor(s, Lower(name))
  {
    hide HeaderKind, ServicesHeader, ProfileHeader;
    LowerPrefix(s.header, name);
    match HeaderKind(s.header) {
      case Some(Profile(n)) =>
        ProfileNotServices(n, name);
      case Some(Services(n)) =>
        LowerServicesHeader(n, name);
      case _ =>
    }
  }

  lemma {:induction false} LowerPrefix(header: string, name: string)
    requires EqIgnoreCase(header, ServicesHeader(name))
    ensures "[services " <= Lower(header)
  {
    var x := ServicesHeader(name);
    assert "[services " <= x;
    assert Lower(x)[..10] == "[services ";
  }

  lemma {:induction false} ProfileNotServices(n: string, name: string)
    ensures !EqIgnoreCase(ProfileHeader(n), ServicesHeader(name))
  {
    var x, y := ProfileHeader(n), ServicesHeader(name);
    assert Lower(x)[1] == 'd' || Lower(x)[1] == 'p';
    assert Lower(y)[1] == 's';
  }

  lemma {:induction false} NoSectionNoEndpoints(doc: seq<Section>, name: string)
    requires CanonicalDoc(doc)
    requires forall i | 0 <= i < |doc| :: !EqIgnoreCase(doc[i].header, ServicesHeader(name))
    ensures EndpointsOf(doc, Lower(name)) == []
  {
    hide Lower, ServicesHeader, CanonicalHeader, IsServicesFor;
    if doc != [] {
      if IsServicesFor(doc[0], Lower(name)) { ServicesForNamed(doc[0], name); }
      NoSectionNoEndpoints(doc[1..], name);
    }
  }

  lemma {:induction false} EndpointsOfThree(a: seq<Section>, s: Section, b: seq<Section>, k: string)
    ensures EndpointsOf(a + [s] + b, k)
         == EndpointsOf(a, k) + (if IsServicesFor(s, k) then s.endpoints else []) + EndpointsOf(b, k)
  {
    hide EndpointsOf, IsServicesFor;
    EndpointsOfConcat(a + [s], b, k);
    EndpointsOfOne(a, s, k);
  }

  /** The located `[services]` section is the only source of its name's endpoints. */
  lemma {:induction false} OnlySource(doc: seq<Section>, a: seq<Section>, s: Section, b: seq<Section>, name: string)
    requires doc == a + [s] + b && DistinctHeaders(doc) && CanonicalDoc(doc)
    requires EqIgnoreCase(s.header, ServicesHeader(name))
    ensures IsServicesFor(s, Lower(name))
    ensures EndpointsOf(a, Lower(name)) == [] && EndpointsOf(b, Lower(name)) == []
  {
    hide Lower, ServicesHeader, CanonicalHeader, IsServicesFor, EndpointsOf;
    assert doc[|a|] == s;
    NamedServicesFor(s, name);
    forall i | 0 <= i < |a| ensures CanonicalHeader(a[i].header) && !EqIgnoreCase(a[i].header, ServicesHeader(name)) {
      assert a[i] == doc[i];
    }
    forall i | 0 <= i < |b| ensures CanonicalHeader(b[i].header) && !EqIgnoreCase(b[i].header, ServicesHeader(name)) {
      assert b[i] == doc[|a| + 1 + i];
    }
    NoSectionNoEndpoints(a, name);
    NoSectionNoEndpoints(b, name);
  }

  lemma {:induction false} AbsentNoEndpoints(contents: string, name: string)
    requires WellFormed(contents) && SectionOf(Chunks(contents), ServicesHeader(name)).None?
    ensures EndpointsOf(Doc(Chunks(contents)), Lower(name)) == []
  {
    hide Chunks, Doc, Lower, Trim, ServicesHeader, SectionOf, EndpointsOf, ClosedHeaders, CanonicalDoc;
    var cs := Chunks(contents);
    SectionIffHeader(cs, ServicesHeader(name));
    forall i | 0 <= i < |Doc(cs)| ensures !EqIgnoreCase(Doc(cs)[i].header, ServicesHeader(name)) {
      DocHeader(cs, i);
    }
    NoSectionNoEndpoints(Doc(cs), name);
  }

  // ---------------------------------------------------------------------
  // Names and headers
  // ---------------------------------------------------------------------

  /** A name that can stand in a header and be read back. */
  predicate GoodName(n: string) {
    n != "" && Trimmed(n) && OneLine(n)
  }

  lemma {:induction false} InnerOneLine(header: string)
    requires OneLine(header) && |header| >= 2
    ensures OneLine(Trim(header[1..|header| - 1]))
  {
    TrimTrimmed(header[1..|header| - 1]);
  }

  lemma {:induction false} KindName(header: string, n: string)
    requires OneLine(header) && HeaderKind(header) == Some(Profile(n))
    ensures GoodName(n)
  {
    hide Trim, Lower;
    InnerOneLine(header);
    var inner := Trim(header[1..|header| - 1]);
    if !EqIgnoreCase(inner, "default") {
      TrimTrimmed(inner[7..]);
    }
  }

  lemma {:induction false} SameCaseName(a: string, b: string)
    requires GoodName(a) && EqIgnoreCase(a, b)
    ensures GoodName(b)
  {
    assert |Lower(a)| == |a| && |Lower(b)| == |b|;
    forall i | 0 <= i < |b| ensures IsWhitespace(b[i]) == IsWhitespace(a[i]) && (b[i] == '\n' <==> a[i] == '\n') {
      assert Lower(a)[i] == Lower(b)[i];
    }
  }

  lemma {:induction false} NameReads(word: string, n: string)
    requires GoodName(n) && word != "" && Trimmed(word)
    ensures Trim(word + " " + n) == word + " " + n
    ensures word <= word + " " + n && NameAfter(word + " " + n, word) == Some(n)
  {
    var h := word + " " + n;
    assert h[0] == word[0] && h[|h| - 1] == n[|n| - 1];
    TrimOfTrimmed(h);
    assert h[|word|..] == " " + n;
    TrimSandwich(" ", n, "");
    assert " " + n + "" == " " + n;
  }

  lemma {:induction false} DefaultHeaderKind()
    ensures HeaderKind("[default]") == Some(Profile("default"))
  {
    hide Trim, Lower;
    assert "[default]"[1..8] == "default";
    TrimOfTrimmed("default");
  }

  lemma {:induction false} LongNotDefault(h: string)
    requires |h| > 7
    ensures !EqIgnoreCase(h, "default")
  {
    assert |Lower(h)| == |h|;
  }

  function CanonName(name: string): string {
    if EqIgnoreCase(name, "default") then "default" else name
  }

  lemma {:induction false} InnerKind(header: string, inner: string)
    requires header == "[" + inner + "]" && Trim(inner) == inner
    ensures HeaderKind(header) == SectionKindOf(inner)
  {
    hide Trim, SectionKindOf;
    assert header[1..|header| - 1] == inner;
  }

  lemma {:induction false} NamedProfileKind(name: string)
    requires GoodName(name)
    ensures SectionKindOf("profile" + " " + name) == Some(Profile(name))
  {
    hide Trim, Lower, NameAfter, IsWhitespace;
    var inner := "profile" + " " + name;
    NameReads("profile", name) by { ProfileWord(); }
    LongNotDefault(inner);
  }

  lemma {:induction false} ProfileWord()
    ensures Trimmed("profile")
  {
  }

  /** The header the editor writes is read back as the same profile. */
  lemma {:induction false} ProfileHeaderKind(name: string)
    requires GoodName(name)
    ensures HeaderKind(ProfileHeader(name)) == Some(Profile(CanonName(name))) && GoodHeader(ProfileHeader(name))
  {
    hide Trim, HeaderKind, GoodName, EqIgnoreCase;
    if EqIgnoreCase(name, "default") {
      DefaultHeaderKind();
    } else {
      NamedHeaderKind(name);
    }
  }

  lemma {:induction false} NamedHeaderKind(name: string)
    requires GoodName(name)
    ensures var h := "[profile " + name + "]";
            HeaderKind(h) == Some(Profile(name)) && GoodHeader(h)
  {
    hide Trim, Lower, HeaderKind, SectionKindOf, IsWhitespace, NameAfter;
    NamedProfileKind(name);
    NameReads("profile", name) by { ProfileWord(); }
    var inner := "profile" + " " + name;
    assert "[profile " + name + "]" == "[" + inner + "]";
    InnerKind("[profile " + name + "]", inner);
  }

  lemma {:induction false} ServicesHeaderKind(name: string)
    requires GoodName(name)
    ensures HeaderKind(ServicesHeader(name)) == Some(Services(name)) && GoodHeader(ServicesHeader(name))
  {
    hide Trim, Lower;
    var h := ServicesHeader(name);
    var inner := "services" + " " + name;
    assert h[1..|h| - 1] == inner;
    NameReads("services", name);
    LongNotDefault(inner);
    assert inner[1] == 'e' && "profile"[0] != inner[0] && "sso-session"[1] != inner[1];
  }

  lemma {:induction false} FreshNameGood(contents: string, profiles: seq<ProfileInfo>, profileName: string)
    requires GoodName(profileName)
    ensures var m := FreshName(contents, profiles, profileName);
            GoodName(m) && GoodValue(m) && !IsTaken(contents, profiles, m)
  {
    hide TakenHeaders, IsTaken, Lower, ServicesHeader;
    var base := "dbflux-" + profileName;
    var taken := TakenHeaders(contents, profiles);
    var m := FreshFrom(taken, base, 1);
    var j := FreshIsCandidate(taken, base, 1);
    CandidateGood(profileName, j);
    TakenIsMember(contents, profiles, m);
  }

  lemma {:induction false} CandidateGood(profileName: string, j: nat)
    requires GoodName(profileName)
    ensures GoodName(Candidate("dbflux-" + profileName, j))
  {
    var base := "dbflux-" + profileName;
    var m := Candidate(base, j);
    assert m[0] == 'd';
    if j > 1 {
      var p := Decimal.Print(j);
      assert m[|m| - 1] == p[|p| - 1];
      assert OneLine(p);
    }
  }

  // ---------------------------------------------------------------------
  // What an edit does to the entries
  // ---------------------------------------------------------------------

  /** The entry after an edit: as before, but for its name's case, its reference
      and its endpoint. */
  predicate EditedEntry(before: ProfileInfo, after: ProfileInfo, url: Option<string>) {
    && after == before.(name := after.name, services := after.services, endpointUrl := url)
    && EqIgnoreCase(after.name, before.name)
  }

  /** What an edit of profile `t` does to the others: nothing, except that an
      sso-session entry that names the section edited in place follows. */
  predicate OtherEntry(before: ProfileInfo, after: ProfileInfo, url: Option<string>, section: Option<string>) {
    after == if Follows(before, section) then before.(endpointUrl := url) else before
  }

  predicate Follows(p: ProfileInfo, section: Option<string>) {
    p.isSsoSession && section.Some? && RefersTo(p, section.value)
  }

  /** The result of an edit of profile `t`, in place if there is a `section`. */
  predicate Outcome(before: seq<ProfileInfo>, after: seq<ProfileInfo>, t: nat, url: Option<string>,
          section: Option<string>) {
    && |after| == |before| && t < |before|
    && EditedEntry(before[t], after[t], url)
    && forall i | 0 <= i < |before| && i != t :: OtherEntry(before[i], after[i], url, section)
  }

  function UrlFor(doc: seq<Section>, p: ProfileInfo): Option<string> {
    if p.services.None? then None else UrlOf(EndpointsOf(doc, Lower(p.services.value)))
  }

  lemma {:induction false} ResolveEntry(doc: seq<Section>, p: ProfileInfo)
    requires p.endpointUrl.None?
    ensures Resolve(p, doc) == p.(endpointUrl := UrlFor(doc, p))
  {
    hide UrlOf, EndpointsOf, Lower;
  }

  lemma {:induction false} OutcomeFrom(d: seq<Section>, d': seq<Section>, t: nat, e': ProfileInfo,
          url: Option<string>, section: Option<string>)
    requires t < |Entries(d)| && Entries(d') == Entries(d)[t := e']
    requires EditedEntry(Entries(d)[t], e', None) && UrlFor(d', e') == url
    requires forall i | 0 <= i < |Entries(d)| && i != t ::
               UrlFor(d', Entries(d)[i]) == if Follows(Entries(d)[i], section) then url else UrlFor(d, Entries(d)[i])
    ensures Outcome(Interpret(d), Interpret(d'), t, url, section)
    ensures Interpret(d')[t].services == e'.services && Interpret(d')[t].name == e'.name
  {
    hide Entries, UrlFor, Resolve, Follows, Lower;
    EntriesUnresolved(d);
    EntriesUnresolved(d');
    var es := Entries(d);
    forall i | 0 <= i < |es| ensures Interpret(d)[i] == es[i].(endpointUrl := UrlFor(d, es[i])) {
      assert es[i] in es;
      ResolveEntry(d, es[i]);
    }
    forall i | 0 <= i < |es|
      ensures Interpret(d')[i] == (var p := if i == t then e' else es[i]; p.(endpointUrl := UrlFor(d', p)))
    {
      assert Entries(d')[i] in Entries(d');
      ResolveEntry(d', Entries(d')[i]);
    }
    forall i | 0 <= i < |es| && i != t ensures OtherEntry(Interpret(d)[i], Interpret(d')[i], url, section) {
      FollowsSame(es[i], UrlFor(d, es[i]), section);
    }
  }

  lemma {:induction false} FollowsSame(p: ProfileInfo, url: Option<string>, section: Option<string>)
    ensures Follows(p.(endpointUrl := url), section) == Follows(p, section)
  {
  }

  lemma {:induction false} EntriesThree(a: seq<Section>, s: Section, b: seq<Section>)
    ensures Entries(a + [s] + b) == Entries(a) + EntryOf(HeaderKind(s.header), s.keys) + Entries(b)
  {
    hide EntryOf, HeaderKind;
    EntriesConcat(a + [s], b);
    EntriesConcat(a, [s]);
    assert [s][1..] == [];
    assert Entries([s]) == EntryOf(HeaderKind(s.header), s.keys) + Entries([]);
  }

  lemma {:induction false} RelinkedEntry(name: string, name': string, keys: map<string, string>, link: Option<string>)
    ensures var e, e' := ProfileFrom(name, false, keys), ProfileFrom(name', false, Relinked(keys, link));
            e' == e.(name := name', services := link)
  {
    forall k | k != "services" ensures Get(Relinked(keys, link), k) == Get(keys, k) {}
    assert |"services"| == 8 && |"sso_start_url"| == 13 && |"sso_session"| == 11 && |"region"| == 6
        && |"sso_region"| == 10 && |"sso_account_id"| == 14 && |"sso_role_name"| == 13;
    assert Get(Relinked(keys, link), "services") == link;
  }

  // ---------------------------------------------------------------------
  // Rewriting the profile block
  // ---------------------------------------------------------------------

  /** The indented lines of the profile's section stay out of the way of its
      `services` key. */
  predicate TidyTarget(contents: string, profileName: string) {
    match SectionOf(Chunks(contents), ProfileHeader(profileName))
    case None => true
    case Some(section) => section != [] ==> TidyFrom(section[1..], None)
  }

  /** What holds of the file when the target is entry `t` of its meaning. */
  predicate TargetAt(contents: string, profileName: string, t: nat) {
    var es := Entries(Doc(Chunks(contents)));
    t < |es| && IsTarget(es[t], profileName)
  }

  lemma {:induction false} TargetName(contents: string, profileName: string, t: nat)
    requires WellFormed(contents) && TargetAt(contents, profileName, t)
    ensures GoodName(profileName)
    ensures GoodHeader(ProfileHeader(profileName)) && HeaderKind(ProfileHeader(profileName)) == Some(Profile(CanonName(profileName)))
  {
    hide Chunks, Doc, Entries, HeaderKind, Trim, Lower, ProfileHeader, Keys, WellFormed, GoodName, GoodHeader, CutAt;
    var c := LocateTarget(contents, profileName, t);
    var cs := Chunks(contents);
    ChunkTrimOneLine(cs[c.i]);
    var e := Entries(Doc(cs))[t];
    KindName(Trim(cs[c.i]), e.name);
    SameCaseName(e.name, profileName);
    ProfileHeaderKind(profileName);
  }

  lemma {:induction false} ChunkTrimOneLine(c: string)
    requires IsChunk(c)
    ensures OneLine(Trim(c))
  {
    hide Trim;
    TrimLine(c);
    TrimTrimmed(Line(c));
    assert '\n' !in Line(c);
  }

  /** The meaning of the file after the profile block is rewritten. */
  lemma {:induction false} RelinkEntries(contents: string, profileName: string, t: nat, link: Option<string>)
    returns (a: seq<Section>, s: Section, s': Section, b: seq<Section>)
    requires WellFormed(contents) && TargetAt(contents, profileName, t) && TidyTarget(contents, profileName)
    requires link.Some? ==> link.value != "" && GoodValue(link.value)
    ensures Doc(Chunks(contents)) == a + [s] + b
    ensures Doc(Chunks(Relink(contents, profileName, link))) == a + [s'] + b
    ensures ClosedHeaders(Chunks(Relink(contents, profileName, link)))
    ensures EqIgnoreCase(s.header, ProfileHeader(profileName)) && s'.header == ProfileHeader(profileName)
    ensures var e := Entries(Doc(Chunks(contents)))[t];
            var e' := e.(name := CanonName(profileName), services := link);
            && EditedEntry(e, e', None)
            && Entries(a + [s'] + b) == Entries(a + [s] + b)[t := e']
    ensures InProfile(HeaderKind(s.header)) && InProfile(HeaderKind(s'.header))
  {
    hide Chunks, Doc, Entries, HeaderKind, Trim, Lower, ProfileHeader, Keys, GoodName, GoodHeader, HeaderIndex,
         BodyLength, Relink, ProfileFrom, EntryOf, Relinked, TidyFrom, GoodValue, ClosedHeaders, CanonicalDoc,
         DistinctHeaders, SectionOf, Endpoints;
    var cs := Chunks(contents);
    var c := LocateTarget(contents, profileName, t);
    TargetName(contents, profileName, t);
    var header := ProfileHeader(profileName);
    SectionAtIndex(cs, header);
    assert cs[c.i..c.j][1..] == cs[c.i + 1..c.j];
    s' := RelinkDoc(contents, profileName, c, link);
    a, s, b := Doc(cs[..c.i]), SectionFrom(cs[c.i], cs[c.i + 1..c.j]), Doc(cs[c.j..]);
    var e := Entries(Doc(cs))[t];
    RelinkedEntry(e.name, CanonName(profileName), s.keys, link);
    EntriesThree(a, s, b);
    EntriesThree(a, s', b);
    ProfileEntry(HeaderKind(s.header), s.keys, e.name);
    ProfileEntry(HeaderKind(s'.header), s'.keys, CanonName(profileName));
    HeaderIndexAt(cs, header);
    SameCaseTarget(e, profileName);
    EntriesUnresolved(a + [s] + b);
    assert e in Entries(a + [s] + b);
  }

  predicate InProfile(kind: Option<SectionKind>) {
    kind.Some? && kind.value.Profile?
  }

  lemma {:induction false} ProfileEntry(kind: Option<SectionKind>, keys: map<string, string>, name: string)
    requires kind == Some(Profile(name))
    ensures EntryOf(kind, keys) == [ProfileFrom(name, false, keys)]
  {
    hide ProfileFrom;
  }

  lemma {:induction false} SameCaseTarget(e: ProfileInfo, profileName: string)
    requires IsTarget(e, profileName)
    ensures EqIgnoreCase(CanonName(profileName), e.name)
  {
    hide Lower;
  }

  lemma {:induction false} ProfileNoServices(s: Section, k: string)
    requires InProfile(HeaderKind(s.header))
    ensures !IsServicesFor(s, k)
  {
    hide HeaderKind;
  }

  /** Rewriting the profile block leaves the endpoints of every name alone. */
  lemma {:induction false} RelinkEndpoints(a: seq<Section>, s: Section, s': Section, b: seq<Section>, k: string)
    requires InProfile(HeaderKind(s.header)) && InProfile(HeaderKind(s'.header))
    ensures EndpointsOf(a + [s'] + b, k) == EndpointsOf(a + [s] + b, k)
  {
    hide EndpointsOf, IsServicesFor, HeaderKind;
    EndpointsOfThree(a, s, b, k);
    EndpointsOfThree(a, s', b, k);
    ProfileNoServices(s, k);
    ProfileNoServices(s', k);
  }

  /** Dropping the reference: the profile has no endpoint, the others keep theirs. */
  lemma {:induction false} UnlinkOutcome(contents: string, profileName: string, t: nat)
    requires WellFormed(contents) && TargetAt(contents, profileName, t) && TidyTarget(contents, profileName)
    ensures Outcome(Parse(contents), Parse(Relink(contents, profileName, None)), t, None, None)
    ensures Parse(Relink(contents, profileName, None))[t].services == None
  {
    hide Chunks, Doc, Entries, HeaderKind, ProfileHeader, Relink, ClosedHeaders, WellFormed, TidyTarget, Outcome,
         EndpointsOf, UrlOf, Lower, EditedEntry, Interpret;
    var a, s, s', b := RelinkEntries(contents, profileName, t, None);
    var d, d' := a + [s] + b, a + [s'] + b;
    var e := Entries(d)[t];
    var e' := e.(name := CanonName(profileName), services := None);
    forall p: ProfileInfo ensures UrlFor(d', p) == UrlFor(d, p) {
      if p.services.Some? { RelinkEndpoints(a, s, s', b, Lower(p.services.value)); }
    }
    OutcomeFrom(d, d', t, e', None, None);
  }

  // ---------------------------------------------------------------------
  // Linking a new section
  // ---------------------------------------------------------------------

  lemma {:induction false} ParseServices(contents: string, i: nat)
    requires i < |Entries(Doc(Chunks(contents)))|
    ensures i < |Parse(contents)|
    ensures var e, p := Entries(Doc(Chunks(contents)))[i], Parse(contents)[i];
            p.services == e.services && p.name == e.name && p.isSsoSession == e.isSsoSession && p in Parse(contents)
  {
    hide Chunks, Doc, Entries, UrlOf, EndpointsOf, Lower;
    assert Parse(contents)[i] in Parse(contents);
  }

  lemma {:induction false} NewSectionFor(s: Section, m: string, k: string)
    requires HeaderKind(s.header) == Some(Services(m))
    ensures IsServicesFor(s, k) <==> Lower(m) == k
  {
    hide HeaderKind, Lower;
  }

  lemma {:induction false} AppendedEntries(d: seq<Section>, s: Section, m: string)
    requires HeaderKind(s.header) == Some(Services(m))
    ensures Entries(d + [s]) == Entries(d)
  {
    hide HeaderKind;
    EntriesConcat(d, [s]);
    assert [s][1..] == [];
    assert Entries([s]) == EntryOf(HeaderKind(s.header), s.keys) + Entries([]);
  }

  lemma {:induction false} NotTakenAbsent(contents: string, profiles: seq<ProfileInfo>, m: string)
    requires !IsTaken(contents, profiles, m)
    ensures SectionOf(Chunks(contents), ServicesHeader(m)).None?
    ensures forall p | p in profiles && p.services.Some? :: Lower(p.services.value) != Lower(m)
  {
    hide Chunks, SectionOf, Lower, ServicesHeader;
  }

  /** A profile linked to a new section reports the endpoint of the body it got. */
  lemma {:induction false} LinkOutcome(contents: string, profileName: string, t: nat, body: string,
          url: Option<string>)
    requires WellFormed(contents) && TargetAt(contents, profileName, t) && TidyTarget(contents, profileName)
    requires NoBrackets(Chunks(body)) && UrlOf(Endpoints(Chunks(body), None)) == url
    ensures var after := Parse(LinkNewSection(contents, Parse(contents), profileName, body));
            && Outcome(Parse(contents), after, t, url, None)
            && after[t].services == Some(FreshName(contents, Parse(contents), profileName))
  {
    hide Chunks, Doc, Entries, HeaderKind, ProfileHeader, Relink, ClosedHeaders, WellFormed, TidyTarget, Outcome,
         EndpointsOf, UrlOf, Lower, EditedEntry, Interpret, FreshName, IsTaken, GoodName, GoodValue, NoBrackets,
         Endpoints, ServicesHeader, AppendSection, GoodHeader, SectionOf, IsServicesFor, TargetAt, TidyFrom;
    var profiles := Parse(contents);
    var m := FreshName(contents, profiles, profileName);
    TargetName(contents, profileName, t);
    FreshNameGood(contents, profiles, profileName);
    ServicesHeaderKind(m);
    NotTakenAbsent(contents, profiles, m);
    AbsentNoEndpoints(contents, m);
    NameNotEmpty(m);
    var a, s, s', b := RelinkEntries(contents, profileName, t, Some(m));
    var linked := Relink(contents, profileName, Some(m));
    var new' := AppendDoc(linked, ServicesHeader(m), body);
    var d, d1 := a + [s] + b, a + [s'] + b;
    var d' := d1 + [new'];
    AppendedEntries(d1, new', m);
    TargetIndexIn(contents, profileName, t);
    var e := Entries(d)[t];
    var e' := e.(name := CanonName(profileName), services := Some(m));
    LinkedUrl(d, d1, d', new', a, s, s', b, m);
    forall i | 0 <= i < |Entries(d)| && i != t ensures UrlFor(d', Entries(d)[i]) == UrlFor(d, Entries(d)[i]) {
      var p := Entries(d)[i];
      ParseServices(contents, i);
      if p.services.Some? {
        var k := Lower(p.services.value);
        RelinkEndpoints(a, s, s', b, k);
        EndpointsOfOne(d1, new', k);
        NewSectionFor(new', m, k);
        assert EndpointsOf(d1, k) + [] == EndpointsOf(d1, k);
      }
    }
    OutcomeFrom(d, d', t, e', url, None);
  }

  lemma {:induction false} NameNotEmpty(m: string)
    requires GoodName(m)
    ensures m != ""
  {
  }

  lemma {:induction false} TargetIndexIn(contents: string, profileName: string, t: nat)
    requires TargetAt(contents, profileName, t)
    ensures t < |Entries(Doc(Chunks(contents)))| && IsTarget(Entries(Doc(Chunks(contents)))[t], profileName)
  {
  }

  lemma {:induction false} LinkedUrl(d: seq<Section>, d1: seq<Section>, d': seq<Section>, new': Section,
                                     a: seq<Section>, s: Section, s': Section, b: seq<Section>, m: string)
    requires d == a + [s] + b && d1 == a + [s'] + b && d' == d1 + [new']
    requires InProfile(HeaderKind(s.header)) && InProfile(HeaderKind(s'.header)) && HeaderKind(new'.header) == Some(Services(m))
    requires EndpointsOf(d, Lower(m)) == []
    ensures EndpointsOf(d', Lower(m)) == new'.endpoints
  {
    hide EndpointsOf, HeaderKind, Lower, IsServicesFor, InProfile;
    RelinkEndpoints(a, s, s', b, Lower(m));
    EndpointsOfOne(d1, new', Lower(m));
    NewSectionFor(new', m, Lower(m));
  }

  // ---------------------------------------------------------------------
  // Editing the section in place
  // ---------------------------------------------------------------------

  lemma {:induction false} UniqueTarget(contents: string, profileName: string, t: nat, i: nat)
    requires WellFormed(contents) && TargetAt(contents, profileName, t) && TargetAt(contents, profileName, i)
    ensures i == t
  {
    hide Chunks, Doc, Entries, HeaderKind, Trim, Keys, WellFormed, ProfileHeader, HeaderIndex, BodyLength, IsTarget;
    var c := LocateTarget(contents, profileName, t);
    var c' := LocateTarget(contents, profileName, i);
  }

  /** When no other profile refers to the section, another entry that does is an
      sso-session. */
  lemma {:induction false} OnlySessions(contents: string, profileName: string, t: nat, section: string, i: nat)
    requires WellFormed(contents) && TargetAt(contents, profileName, t)
    requires !IsShared(Parse(contents), profileName, section)
    requires i < |Entries(Doc(Chunks(contents)))| && i != t && RefersTo(Entries(Doc(Chunks(contents)))[i], section)
    ensures Entries(Doc(Chunks(contents)))[i].isSsoSession
  {
    hide Chunks, Doc, Entries, WellFormed, Lower, Parse;
    var e := Entries(Doc(Chunks(contents)))[i];
    ParseServices(contents, i);
    var p := Parse(contents)[i];
    assert RefersTo(p, section);
    if !e.isSsoSession && EqIgnoreCase(e.name, profileName) {
      UniqueTarget(contents, profileName, t, i);
    }
  }

  /** The meaning after an edit that changes the endpoints of one name only. */
  lemma {:induction false} InPlaceOutcome(contents: string, profileName: string, t: nat, section: string,
          d': seq<Section>, url: Option<string>)
    requires WellFormed(contents) && TargetAt(contents, profileName, t)
    requires Entries(Doc(Chunks(contents)))[t].services == Some(section)
    requires !IsShared(Parse(contents), profileName, section)
    requires Entries(d') == Entries(Doc(Chunks(contents)))
    requires UrlOf(EndpointsOf(d', Lower(section))) == url
    requires forall k | k != Lower(section) :: EndpointsOf(d', k) == EndpointsOf(Doc(Chunks(contents)), k)
    ensures Outcome(Parse(contents), Interpret(d'), t, url, Some(section))
    ensures Interpret(d')[t].services == Some(section)
  {
    hide Chunks, Doc, Entries, WellFormed, Lower, Interpret, EndpointsOf, UrlOf, Outcome, IsShared;
    var d := Doc(Chunks(contents));
    var e := Entries(d)[t];
    EntriesUnresolved(d);
    assert e in Entries(d);
    forall i | 0 <= i < |Entries(d)| && i != t
      ensures UrlFor(d', Entries(d)[i]) == if Follows(Entries(d)[i], Some(section)) then url else UrlFor(d, Entries(d)[i])
    {
      var p := Entries(d)[i];
      if p.services.Some? && Lower(p.services.value) == Lower(section) {
        OnlySessions(contents, profileName, t, section, i);
      }
    }
    assert Entries(d)[t := e] == Entries(d);
    OutcomeFrom(d, d', t, e, url, Some(section));
  }

  lemma {:induction false} LocateServices(contents: string, section: string, lines: seq<string>) returns (c: Cut)
    requires WellFormed(contents) && SectionOf(Chunks(contents), ServicesHeader(section)) == Some(lines)
    ensures CutAt(Chunks(contents), ServicesHeader(section), c) && c.i < c.j <= |Chunks(contents)|
    ensures lines != [] && lines == Chunks(contents)[c.i..c.j] && lines[1..] == Chunks(contents)[c.i + 1..c.j]
    ensures var cs := Chunks(contents);
            var a, s, b := Doc(cs[..c.i]), SectionFrom(cs[c.i], cs[c.i + 1..c.j]), Doc(cs[c.j..]);
            && Doc(cs) == a + [s] + b && IsServicesFor(s, Lower(section))
            && EndpointsOf(a, Lower(section)) == [] && EndpointsOf(b, Lower(section)) == []
    ensures NoBrackets(lines[1..])
  {
    hide Chunks, Doc, Trim, Lower, HeaderIndex, BodyLength, ServicesHeader, IsBracket, ClosedHeaders, DistinctHeaders,
         CanonicalDoc, SectionOf, Keys, Endpoints, IsServicesFor, EndpointsOf, IsHeader;
    var cs := Chunks(contents);
    var header := ServicesHeader(section);
    c := CutOf(cs, header, lines);
    ServicesHeaderName(section);
    DocAroundSection(cs, header, c.i, c.j);
    HeaderIndexAt(cs, header);
    assert lines[1..] == cs[c.i + 1..c.j];
    OnlySource(Doc(cs), Doc(cs[..c.i]), SectionFrom(cs[c.i], cs[c.i + 1..c.j]), Doc(cs[c.j..]), section);
    SectionBody(cs, header, lines);
    assert forall k | 1 <= k < |lines| :: !IsBracket(lines[k]);
  }

  lemma {:induction false} ServicesHeaderName(name: string)
    ensures IsHeaderName(ServicesHeader(name))
  {
  }

  /** Replacing the body of the referenced section. */
  lemma {:induction false} ReplaceOutcome(contents: string, profileName: string, t: nat, section: string,
          lines: seq<string>, edited: string, url: Option<string>)
    requires WellFormed(contents) && TargetAt(contents, profileName, t)
    requires Entries(Doc(Chunks(contents)))[t].services == Some(section)
    requires !IsShared(Parse(contents), profileName, section)
    requires SectionOf(Chunks(contents), ServicesHeader(section)) == Some(lines)
    requires EndsLine(edited) && NoBrackets(Chunks(edited)) && UrlOf(Endpoints(Chunks(edited), None)) == url
    ensures var after := Parse(ReplaceSectionBody(contents, ServicesHeader(section), Flatten(lines), edited));
            && Outcome(Parse(contents), after, t, url, Some(section))
            && after[t].services == Some(section)
  {
    hide Chunks, Doc, Entries, Lower, ServicesHeader, NoBrackets, Endpoints, UrlOf, EndpointsOf, Outcome, IsShared,
         ReplaceSectionBody, Keys, Trim, HeaderIndex, BodyLength, SectionOf, EndsLine, IsServicesFor, ClosedHeaders,
         DistinctHeaders, CanonicalDoc, Interpret, Flatten;
    var cs := Chunks(contents);
    var c := LocateServices(contents, section, lines);
    ServicesHeaderName(section);
    ReplaceBodyDoc(contents, ServicesHeader(section), c, edited);
    var a, s, b := Doc(cs[..c.i]), SectionFrom(cs[c.i], cs[c.i + 1..c.j]), Doc(cs[c.j..]);
    var s' := SectionFrom(cs[c.i], Chunks(edited));
    var d' := a + [s'] + b;
    SameServicesFor(s, s');
    EntriesThree(a, s, b);
    EntriesThree(a, s', b);
    forall k ensures EndpointsOf(d', k) == if k == Lower(section) then s'.endpoints else EndpointsOf(a + [s] + b, k) {
      EndpointsOfThree(a, s, b, k);
      EndpointsOfThree(a, s', b, k);
      ServicesForOne(s, Lower(section), k);
      ServicesForOne(s', Lower(section), k);
    }
    InPlaceOutcome(contents, profileName, t, section, d', url);
  }

  lemma {:induction false} SameServicesFor(s: Section, s': Section)
    requires s.header == s'.header
    ensures forall k :: IsServicesFor(s, k) == IsServicesFor(s', k)
    ensures forall k | IsServicesFor(s, k) :: EntryOf(HeaderKind(s.header), s.keys) == [] && EntryOf(HeaderKind(s'.header), s'.keys) == []
  {
    hide HeaderKind, Lower;
  }

  lemma {:induction false} ServicesForOne(s: Section, k: string, k': string)
    requires IsServicesFor(s, k)
    ensures IsServicesFor(s, k') <==> k == k'
  {
    hide HeaderKind, Lower;
  }
}

/** Small files and what they mean: the profile `a` with a `services` key, and what
    follows it. */
module SampleFiles {
  import opened Text
  import opened Sections
  import opened AwsParser
  import opened DocEdits
  import opened MergeWriter
  import opened ProfileWriter
  import opened ProfileKeys
  import opened EndpointEditor
  import opened EndpointOps
  import opened EndpointMeaning
  import opened EndpointTheorems
  import opened EndpointIdempotence

  function RefLine(ref: string): string {
    "services = " + ref + "\n"
  }

  function SampleLines(ref: string, rest: seq<string>): seq<string> {
    [ProfileHeader("a") + "\n", RefLine(ref)] + rest
  }

  function SampleFile(ref: string, rest: seq<string>): string {
    Flatten(SampleLines(ref, rest))
  }

  /** A line that holds a reference. */
  lemma {:induction false} RefLineReads(ref: string)
    requires Trimmed(ref) && OneLine(ref)
    ensures var l := RefLine(ref);
            && Terminated(l) && !IsBracket(l) && !IsHeader(l)
            && Keys([l]) == map["services" := ref] && TidyFrom([l], None)
  {
    hide Trim, KeyValue, Lower, IsWhitespace;
    var l := RefLine(ref);
    ServicesKey();
    KeyValueOf("", "services", " ", " ", ref, "\n");
    assert l == "" + "services" + " " + "=" + (" " + ref + "\n");
    KeyValueTrim(l);
    TrimFirst("", l);
    assert "" + l == l;
    var one: seq<string> := [l];
    assert one[1..] == [];
    assert Keys(one) == LineKeys(l) + Keys([]);
    assert TidyFor(one, None, {"services"}) == TidyFor([], Some("services"), {"services"});
    assert l[0] == 's';
  }

  lemma {:induction false} ServicesKey()
    ensures Lower("services") == "services" && Trimmed("services") && '=' !in "services" && !IsWhitespace('s')
    ensures AllWhitespace(" ") && AllWhitespace("\n") && AllWhitespace("")
  {
  }

  lemma {:induction false} HeaderReads(header: string)
    requires GoodHeader(header)
    ensures var c := header + "\n";
            Terminated(c) && IsHeader(c) && IsBracket(c) && Trim(c) == header
  {
    hide Trim;
    TrimPadded("", header, "\n");
    assert "" + header + "\n" == header + "\n";
    TrimOfTrimmed(header);
  }

  lemma {:induction false} ProfileA()
    ensures GoodName("a") && ProfileHeader("a") == "[profile a]" && GoodHeader("[profile a]")
    ensures HeaderKind("[profile a]") == Some(Profile("a")) && CanonicalHeader("[profile a]")
  {
    hide HeaderKind;
    assert |Lower("a")| == 1 && |Lower("default")| == 7;
    ProfileHeaderKind("a");
  }

  /** What may follow the profile: whole sections, well-formed, that add no profile. */
  ghost predicate GoodRest(rest: seq<string>) {
    && AllTerminated(rest) && (rest == [] || (IsHeader(rest[0]) && IsBracket(rest[0])))
    && ClosedHeaders(rest) && DistinctHeaders(Doc(rest)) && CanonicalDoc(Doc(rest))
    && (forall i | 0 <= i < |Doc(rest)| :: !EqIgnoreCase(Doc(rest)[i].header, "[profile a]"))
    && (forall e | e in Entries(Doc(rest)) :: e.isSsoSession)
  }

  lemma {:induction false} SampleChunks(ref: string, rest: seq<string>)
    requires GoodRest(rest) && Trimmed(ref) && OneLine(ref)
    ensures Chunks(SampleFile(ref, rest)) == SampleLines(ref, rest)
    ensures IsHeader(SampleLines(ref, rest)[0]) && Trim(SampleLines(ref, rest)[0]) == "[profile a]"
  {
    hide Chunks, Flatten, Doc, Entries, IsHeader, ClosedHeaders, DistinctHeaders, CanonicalDoc, Trim, IsBracket,
         RefLine, OneLine, Trimmed, ProfileHeader, GoodName, HeaderKind, GoodHeader, Terminated;
    ProfileA();
    HeaderReads("[profile a]");
    RefLineReads(ref);
    ListOfTerminated(SampleLines(ref, rest));
    ChunksOfFlatten(SampleLines(ref, rest));
  }

  /** The sections of a sample. */
  lemma {:induction false} SampleDoc(ref: string, rest: seq<string>)
    requires GoodRest(rest) && Trimmed(ref) && OneLine(ref)
    ensures var d := Doc(SampleLines(ref, rest));
            && d != [] && d[1..] == Doc(rest)
            && d[0].header == "[profile a]" && d[0].keys == map["services" := ref]
    ensures WellFormed(SampleFile(ref, rest))
  {
    hide Chunks, Flatten, Doc, Entries, IsHeader, Trim, IsBracket, RefLine, OneLine, Trimmed, ProfileHeader, GoodName,
         HeaderKind, GoodHeader, Terminated, Keys, Endpoints, Lower, CanonicalHeader, TidyFrom, SampleFile;
    SampleChunks(ref, rest);
    ProfileA();
    HeaderReads("[profile a]");
    RefLineReads(ref);
    var h, l := ProfileHeader("a") + "\n", RefLine(ref);
    DocOne(h, [l]);
    assert [h] + [l] == [h, l];
    DocConcat([h, l], rest);
    var s, d := SectionFrom(h, [l]), Doc(SampleLines(ref, rest));
    assert d == [s] + Doc(rest);
    forall k | 0 <= k < |d| ensures CanonicalHeader(d[k].header) && (k > 0 ==> d[k] == Doc(rest)[k - 1]) {
      if k > 0 { assert d[k] == Doc(rest)[k - 1]; }
    }
    CloseJoin([h, l], rest);
  }

  lemma {:induction false} SampleTidy(ref: string, rest: seq<string>)
    requires GoodRest(rest) && Trimmed(ref) && OneLine(ref)
    ensures TidyTarget(SampleFile(ref, rest), "a")
  {
    hide Chunks, Flatten, Doc, Entries, IsHeader, Trim, IsBracket, RefLine, OneLine, Trimmed, ProfileHeader, GoodName,
         HeaderKind, GoodHeader, Terminated, Keys, Endpoints, Lower, CanonicalHeader, TidyFrom, SampleFile, SectionOf,
         ClosedHeaders, DistinctHeaders, CanonicalDoc;
    SampleChunks(ref, rest);
    ProfileA();
    RefLineReads(ref);
    var h, l := ProfileHeader("a") + "\n", RefLine(ref);
    assert NoBrackets([l]);
    HeadedSection(ProfileHeader("a"), [l]);
    assert [h] + [l] == [h, l];
    ProfileHeaderName("a");
    SectionOfOne([h, l], ProfileHeader("a"), ProfileHeader("a"));
    SectionOfSplit([h, l], rest, ProfileHeader("a"));
    assert [h, l][1..] == [l];
  }

  /** The profile is the first entry, refers to `ref`, and shares it with no other. */
  lemma {:induction false} SampleMeaning(ref: string, rest: seq<string>, url: Option<string>)
    requires GoodRest(rest) && Trimmed(ref) && OneLine(ref) && (url.Some? ==> OneLine(url.value))
    ensures Editable(SampleFile(ref, rest), "a", url)
    ensures var es, ps := Entries(Doc(SampleLines(ref, rest))), Parse(SampleFile(ref, rest));
            && es != [] && es[1..] == Entries(Doc(rest)) && |ps| == |es|
            && ps[0].services == Some(ref) && TargetIndex(ps, "a") == 0 && !IsShared(ps, "a", ref)
  {
    hide Chunks, Flatten, Doc, IsHeader, Trim, IsBracket, RefLine, OneLine, Trimmed, ProfileHeader, GoodName,
         HeaderKind, GoodHeader, Terminated, Keys, Endpoints, Lower, TidyFrom, SampleFile, SectionOf, ClosedHeaders,
         DistinctHeaders, CanonicalDoc, EndpointsOf, UrlOf, RefersTo, WellFormed, TidyTarget, SampleLines;
    SampleChunks(ref, rest);
    SampleDoc(ref, rest);
    SampleTidy(ref, rest);
    ProfileA();
    var d, ps := Doc(SampleLines(ref, rest)), Parse(SampleFile(ref, rest));
    var es := Entries(d);
    assert es == [ProfileFrom("a", false, d[0].keys)] + Entries(Doc(rest));
    assert ps[0].services == es[0].services && ps[0].name == "a" && !ps[0].isSsoSession;
    forall i | 1 <= i < |ps| ensures ps[i].isSsoSession {
      assert es[i] == Entries(Doc(rest))[i - 1];
      assert es[i] in Entries(Doc(rest));
    }
  }

  // ---------------------------------------------------------------------
  // Nothing, a session, and the section itself
  // ---------------------------------------------------------------------

  lemma {:induction false} NothingFollows()
    ensures GoodRest([])
  {
  }

  /** A session that refers to the section of the profile. */
  function SessionLines(ref: string): seq<string> {
    ["[sso-session b]\n", RefLine(ref)]
  }

  lemma {:induction false} SessionKind()
    ensures HeaderKind("[sso-session b]") == Some(SsoSession("b")) && GoodHeader("[sso-session b]")
    ensures CanonicalHeader("[sso-session b]") && !EqIgnoreCase("[sso-session b]", "[profile a]")
  {
    hide Trim, Lower;
    var h, inner := "[sso-session b]", "sso-session" + " " + "b";
    assert h[1..|h| - 1] == inner;
    NameReads("sso-session", "b");
    LongNotDefault(inner);
    assert "profile"[0] != inner[0];
    SessionLower();
  }

  lemma {:induction false} SessionLower()
    ensures !("[services " <= Lower("[sso-session b]")) && Lower("[sso-session b]") != Lower("[profile a]")
  {
    assert Lower("[sso-session b]")[2] == 's' && "[services "[2] == 'e';
    assert |Lower("[sso-session b]")| == 15 && |Lower("[profile a]")| == 11;
  }

  lemma {:induction false} SessionFollows(ref: string)
    requires Trimmed(ref) && OneLine(ref)
    ensures GoodRest(SessionLines(ref))
    ensures var d := Doc(SessionLines(ref));
            |d| == 1 && d[0].header == "[sso-session b]" && d[0].keys == map["services" := ref]
    ensures var es := Entries(Doc(SessionLines(ref)));
            |es| == 1 && es[0].isSsoSession && es[0].services == Some(ref)
  {
    hide Doc, IsHeader, Trim, IsBracket, RefLine, OneLine, Trimmed, HeaderKind, GoodHeader, Terminated, Keys,
         Endpoints, Lower, CanonicalHeader, TidyFrom;
    SessionKind();
    HeaderReads("[sso-session b]");
    RefLineReads(ref);
    var h, l := "[sso-session b]\n", RefLine(ref);
    assert "[sso-session b]" + "\n" == h;
    DocOne(h, [l]);
    assert [h] + [l] == SessionLines(ref);
    var d := [SectionFrom(h, [l])];
    assert d[1..] == [];
    assert Entries(d) == EntryOf(HeaderKind(d[0].header), d[0].keys) + Entries([]);
  }

  /** The `[services]` section of the profile, with any body. */
  function ServicesLines(lines: seq<string>): seq<string> {
    [ServicesHeader("s") + "\n"] + lines
  }

  lemma {:induction false} ServicesS()
    ensures GoodName("s") && !EqIgnoreCase(ServicesHeader("s"), "[profile a]") && CanonicalHeader(ServicesHeader("s"))
    ensures HeaderKind(ServicesHeader("s")) == Some(Services("s")) && GoodHeader(ServicesHeader("s"))
  {
    hide HeaderKind, CanonicalHeader;
    ServicesHeaderKind("s");
    assert |Lower(ServicesHeader("s"))| == 12 && |Lower("[profile a]")| == 11;
    ServicesNameCanonical("s");
  }

  lemma {:induction false} ServicesNameCanonical(name: string)
    requires HeaderKind(ServicesHeader(name)) == Some(Services(name))
    ensures CanonicalHeader(ServicesHeader(name))
  {
    hide HeaderKind, Lower, ServicesHeader;
  }

  lemma {:induction false} ServicesFollow(lines: seq<string>)
    requires AllTerminated(lines) && NoBrackets(lines)
    ensures GoodRest(ServicesLines(lines)) && Entries(Doc(ServicesLines(lines))) == []
  {
    hide Doc, Trim, IsBracket, HeaderKind, GoodHeader, Terminated, Keys, Endpoints, Lower, CanonicalHeader,
         ServicesHeader, IsHeader;
    ServicesS();
    var h := ServicesHeader("s") + "\n";
    HeaderReads(ServicesHeader("s"));
    forall k | 0 <= k < |lines| ensures !IsHeader(lines[k]) {
      if IsHeader(lines[k]) { HeaderIsBracket(lines[k]); }
    }
    DocOne(h, lines);
    var d := [SectionFrom(h, lines)];
    assert d[1..] == [];
    assert Entries(d) == EntryOf(HeaderKind(d[0].header), d[0].keys) + Entries([]);
  }

  lemma {:induction false} ServicesBody(lines: seq<string>)
    requires AllTerminated(lines) && NoBrackets(lines)
    ensures var body := ReferencedBody(SampleFile("s", ServicesLines(lines)), "s");
            body == Flatten(lines) && Chunks(EndedLine(body)) == lines
  {
    hide Chunks, Flatten, Doc, Entries, IsHeader, Trim, IsBracket, RefLine, OneLine, Trimmed, ProfileHeader, GoodName,
         HeaderKind, GoodHeader, Terminated, Keys, Endpoints, Lower, CanonicalHeader, TidyFrom, SampleFile, SectionOf,
         ClosedHeaders, DistinctHeaders, CanonicalDoc, ServicesHeader, GoodRest, BodyText;
    ServicesS();
    SIsTrimmed();
    ServicesFollow(lines);
    var rest := ServicesLines(lines);
    SampleChunks("s", rest);
    ProfileA();
    RefLineReads("s");
    var h, hs, l := ProfileHeader("a") + "\n", ServicesHeader("s") + "\n", RefLine("s");
    assert NoBrackets([l]);
    HeadedSection(ProfileHeader("a"), [l]);
    assert [h] + [l] == [h, l];
    HeadedSection(ServicesHeader("s"), lines);
    ServicesHeaderName("s");
    ProfileHeaderName("a");
    ProfileNotServices("a", "s");
    SectionOfOne([h, l], ProfileHeader("a"), ServicesHeader("s"));
    SectionOfOne(rest, ServicesHeader("s"), ServicesHeader("s"));
    SectionOfSplit([h, l], rest, ServicesHeader("s"));
    FlattenCons(hs, lines);
    HeaderOneLine(ServicesHeader("s"));
    HeaderTerminated(ServicesHeader("s"));
    BodyOfBlock(hs, Flatten(lines));
    TerminatedEndsLine(lines);
    ListOfTerminated(lines);
    ChunksOfFlatten(lines);
  }

  lemma {:induction false} FlattenCons(c: string, cs: seq<string>)
    ensures Flatten([c] + cs) == c + Flatten(cs)
  {
    assert ([c] + cs)[1..] == cs;
  }

  lemma {:induction false} SIsTrimmed()
    ensures Trimmed("s") && OneLine("s") && Trimmed("") && OneLine("")
  {
  }
}

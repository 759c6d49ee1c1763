/** Where an edit of an endpoint does not do what it says, at small files: setting it
    for a profile whose `services` key is there but blank, and removing it from a
    service with a blank line inside; and a session that follows. */
module EndpointLimits {
  import opened Text
  import opened Sections
  import opened AwsParser
  import opened MergeWriter
  import opened ServicesEditor
  import opened ServicesRemoval
  import opened EndpointEditor
  import opened EndpointOps
  import opened EndpointMeaning
  import opened EndpointTheorems
  import opened EndpointRoundTrip
  import opened EndpointTwice
  import opened SampleFiles
  import opened ServicesTwice
  import opened ServicesStable
  import opened ServicesOthers
  import opened EndpointKeeps
  import DocEdits

  // ---------------------------------------------------------------------
  // A blank line inside a service
  // ---------------------------------------------------------------------

  /** A section in which a blank line parts the opener of `ssm` from its endpoint. */
  function WithGap(sub: string, gap: string, url: string): seq<string> {
    [A + " =\n", sub, C + " =\n", gap, NewEndpointLine(url)]
  }

  ghost predicate IsGap(sub: string, gap: string) {
    InRun(sub) && !IsEndpointLine(sub) && Trim(gap) == ""
  }

  lemma {:induction false} GapLines(sub: string, gap: string, url: string)
    requires IsGap(sub, gap)
    ensures var ls := WithGap(sub, gap, url);
            && Opens(ls[0], A) && !Opens(ls[0], B) && !Opens(ls[0], C)
            && Opens(ls[2], C) && !Opens(ls[2], A) && !Opens(ls[2], B)
            && NoOpener([sub, gap, ls[4]], A) && NoOpener([sub, gap, ls[4]], B) && NoOpener([sub, gap, ls[4]], C)
            && !InRun(ls[2]) && !InRun(gap) && InRun(ls[4]) && IsEndpointLine(ls[4]) && LineKeyValue(ls[4]) == Some(("endpoint_url", Trim(url)))
  {
    hide Trim, KeyValue, ServiceName, NewEndpointLine, IsIndented;
    Names();
    NewOpenerReads(A);
    NewOpenerReads(C);
    OtherOpener(A + " =\n", A, B);
    OtherOpener(A + " =\n", A, C);
    OtherOpener(C + " =\n", C, A);
    OtherOpener(C + " =\n", C, B);
    NewLineReads(url);
    BlankOpens(gap);
  }

  lemma {:induction false} BlankOpens(gap: string)
    requires Trim(gap) == ""
    ensures LineKeyValue(gap) == None && IsSkipped(gap)
  {
    hide Trim, KeyValue;
    EmptyKey();
  }

  /** The removal takes the opener of `ssm` and leaves the endpoint behind the gap. */
  lemma {:induction false} GapRemoved(sub: string, gap: string, url: string)
    requires IsGap(sub, gap)
    ensures EditLines(WithGap(sub, gap, url), None) == [A + " =\n", sub, gap, NewEndpointLine(url)]
  {
    hide Opens, InRun, IsEndpointLine, NewEndpointLine, IsGap, LineKeyValue, Trim;
    var ls := WithGap(sub, gap, url);
    GapLines(sub, gap, url);
    IsGapSub(sub, gap);
    assert NoOpener([sub, gap, ls[4]], A) && NoOpener([sub, gap, ls[4]], B) && NoOpener([sub, gap, ls[4]], C);
    assert !Opens(sub, A) && !Opens(sub, B) && !Opens(sub, C) by {
      assert [sub, gap, ls[4]][0] == sub;
    }
    assert !Opens(gap, B) && !Opens(ls[4], B) by {
      assert [sub, gap, ls[4]][1] == gap && [sub, gap, ls[4]][2] == ls[4];
    }
    GapFirst(ls);
    GapSecond(ls);
    GapThird(ls);
  }

  lemma {:induction false} IsGapSub(sub: string, gap: string)
    requires IsGap(sub, gap)
    ensures InRun(sub) && !IsEndpointLine(sub)
  {
  }

  lemma {:induction false} GapFirst(ls: seq<string>)
    requires |ls| == 5 && Opens(ls[0], A) && InRun(ls[1]) && !InRun(ls[2]) && !IsEndpointLine(ls[1])
    ensures RemoveService(ls, A) == ls
  {
    hide Opens, InRun, IsEndpointLine;
    var rest := ls[1..];
    assert rest[0] == ls[1] && rest[1..][0] == ls[2];
    assert RunLength(rest) == 1 + RunLength(rest[1..]);
    var run := ls[1..2];
    assert run[0] == ls[1] && run[1..] == [];
    assert NonEndpoints(run) == [ls[1]] + NonEndpoints(run[1..]);
    assert NonEndpoints(run) == [ls[1]];
  }

  lemma {:induction false} GapSecond(ls: seq<string>)
    requires |ls| == 5 && forall k | 0 <= k < 5 :: !Opens(ls[k], B)
    ensures RemoveService(ls, B) == ls
  {
    hide Opens, RunLength, NonEndpoints;
    OpenerAt(ls, B);
  }

  lemma {:induction false} GapThird(ls: seq<string>)
    requires |ls| == 5 && !Opens(ls[0], C) && !Opens(ls[1], C) && Opens(ls[2], C) && !InRun(ls[3])
    ensures RemoveService(ls, C) == [ls[0], ls[1], ls[3], ls[4]]
  {
    hide Opens, InRun, IsEndpointLine;
    assert ls[1..][0] == ls[1] && ls[1..][1..][0] == ls[2];
    assert OpenerIndex(ls, C) == 1 + OpenerIndex(ls[1..], C);
    assert OpenerIndex(ls[1..], C) == 1 + OpenerIndex(ls[1..][1..], C);
    assert ls[3..][0] == ls[3];
    assert ls[3..3] == [];
  }

  /** Then the parser takes the endpoint for one of the service above: removing the
      endpoint of such a section leaves it reported. */
  lemma {:induction false} GapKeepsEndpoint(sub: string, gap: string, url: string)
    requires IsGap(sub, gap)
    ensures UrlOf(Endpoints(EditLines(WithGap(sub, gap, url), None), None)) == Some(Trim(url))
  {
    hide Opens, InRun, IsEndpointLine, NewEndpointLine, IsGap, LineKeyValue, Trim, ServiceName, NextService,
         LineEndpoints, EditLines;
    var ls := WithGap(sub, gap, url);
    GapRemoved(sub, gap, url);
    GapLines(sub, gap, url);
    IsGapSub(sub, gap);
    Names();
    var open := Some(A);
    OpenerReads(ls[0], A, None);
    OpenerEndpoints(ls[0], A, None);
    RunIndented(sub);
    RunIndented(ls[4]);
    IndentedReads(sub, open);
    IndentedReads(ls[4], open);
    SkippedReads(sub, gap, open);
    var after := [ls[0], sub, gap, ls[4]];
    assert after[1..] == [sub, gap, ls[4]] && after[1..][1..] == [gap, ls[4]] && [gap, ls[4]][1..] == [ls[4]] && [ls[4]][1..] == [];
    assert Endpoints([ls[4]], open) == [Endpoint(A, Trim(url))] + Endpoints([], open);
    assert Endpoints([gap, ls[4]], open) == [] + Endpoints([ls[4]], open);
    assert Endpoints([sub, gap, ls[4]], open) == [] + Endpoints([gap, ls[4]], open);
    assert Endpoints(after, None) == [] + Endpoints([sub, gap, ls[4]], open);
    assert Endpoints(after, None) == [Endpoint(A, Trim(url))];
  }

  lemma {:induction false} RunIndented(l: string)
    requires InRun(l)
    ensures IsIndented(l)
  {
  }

  lemma {:induction false} SkippedReads(sub: string, gap: string, open: Option<string>)
    requires IsGap(sub, gap)
    ensures NextService(gap, open) == open && LineEndpoints(gap, open) == []
  {
    hide Trim, KeyValue;
  }

  // ---------------------------------------------------------------------
  // Files
  // ---------------------------------------------------------------------

  /** `services` blank and unshared: setting an endpoint changes nothing the parser
      sees. */
  lemma {:induction false} BlankFile(url: string)
    requires OneLine(url)
    ensures var file := SampleFile("", []);
            && Editable(file, "a", Some(url)) && |Parse(file)| == 1 && Parse(file)[0].services == Some("")
            && Parse(Apply(file, "a", Some(url))) == Parse(file) && Parse(file)[0].endpointUrl == None
  {
    hide Parse, Apply, SampleFile, Editable, TargetIndex, Doc, Entries, SampleLines, ReferencedBody, Clears, Outcome,
         Reported, ReportedFor, GoodRest, IsShared;
    NothingFollows();
    SIsTrimmed();
    SampleMeaning("", [], Some(url));
    NoSections();
    ApplyMeansWhatItSays(SampleFile("", []), "a", Some(url));
    TargetOfParse(SampleFile("", []), "a");
    EditableFile(SampleFile("", []), url);
    LostSection(SampleFile("", []), "a", 0, url);
  }

  lemma {:induction false} NoSections()
    ensures Entries(Doc([])) == []
  {
  }

  lemma {:induction false} EditableFile(contents: string, url: string)
    requires Editable(contents, "a", Some(url))
    ensures WellFormed(contents)
  {
  }

  /** A session naming the section of the profile: it had no endpoint, and gets the one
      that is set for the profile. */
  lemma {:induction false} SessionFile(url: string)
    requires OneLine(url)
    ensures var file := SampleFile("s", SessionLines("s"));
            var before, after := Parse(file), Parse(Apply(file, "a", Some(url)));
            && Editable(file, "a", Some(url)) && |before| == 2 && |after| == 2
            && before[1].isSsoSession && before[1].endpointUrl == None
            && after[1] == before[1].(endpointUrl := Some(Trim(url)))
  {
    hide Parse, Apply, SampleFile, Editable, TargetIndex, Doc, Entries, SampleLines, ReferencedBody, Clears, GoodRest,
         IsShared, Trim, ReportedAfter, Lower, SessionLines, EditedEntry, Fails, Chunks;
    SIsTrimmed();
    SessionFollows("s");
    var file := SampleFile("s", SessionLines("s"));
    SampleMeaning("s", SessionLines("s"), Some(url));
    ApplyMeansWhatItSays(file, "a", Some(url));
    SetReported(ReferencedBody(file, "s"), Some(url));
    SessionBefore();
    var before, after := Parse(file), Parse(Apply(file, "a", Some(url)));
    assert OtherEntry(before[1], after[1], Some(Trim(url)), Some("s"));
  }

  lemma {:induction false} SessionBefore()
    ensures var before := Parse(SampleFile("s", SessionLines("s")));
            |before| == 2 && before[1].isSsoSession && RefersTo(before[1], "s") && before[1].endpointUrl == None
  {
    hide Chunks, Doc, Lower, SampleFile, SampleLines, SessionLines, GoodRest, HeaderKind, Editable, TargetIndex,
         UrlOf, EndpointsOf;
    SIsTrimmed();
    SessionFollows("s");
    var rest := SessionLines("s");
    SampleMeaning("s", rest, None);
    SampleChunks("s", rest);
    SampleDoc("s", rest);
    var d, file := Doc(SampleLines("s", rest)), SampleFile("s", rest);
    var es := Entries(d);
    assert es[1] == Entries(Doc(rest))[0];
    TargetUrl(file, 1);
    ParseServices(file, 1);
    ProfileA();
    SessionKind();
    assert d == [d[0], Doc(rest)[0]];
    NoneIsServices(d);
    NoUrl();
  }

  lemma {:induction false} NoneIsServices(d: seq<Section>)
    requires |d| == 2 && HeaderKind(d[0].header) == Some(Profile("a")) && HeaderKind(d[1].header) == Some(SsoSession("b"))
    ensures EndpointsOf(d, Lower("s")) == []
  {
    hide HeaderKind, Lower;
    assert d[1..] == [d[1]] && d[1..][1..] == [];
    assert EndpointsOf(d[1..], Lower("s")) == [] + EndpointsOf([], Lower("s"));
    assert EndpointsOf(d, Lower("s")) == [] + EndpointsOf(d[1..], Lower("s"));
  }

  /** Whatever the lines of the referenced section, what the profile reports after a
      removal is what one reading of them leaves. */
  lemma {:induction false} RemovedFromFile(lines: seq<string>)
    requires AllTerminated(lines) && NoBrackets(lines)
    ensures var file := SampleFile("s", ServicesLines(lines));
            && Editable(file, "a", None) && |Parse(file)| == 1 && |Parse(Apply(file, "a", None))| == 1
            && Parse(Apply(file, "a", None))[0].endpointUrl == UrlOf(Left(lines, None, {}))
  {
    hide Parse, Apply, SampleFile, Editable, TargetIndex, Doc, Entries, SampleLines, ReferencedBody, Clears, GoodRest,
         IsShared, Lower, EditedEntry, Fails, Chunks, Left, UrlOf, ServicesLines, EndedLine, AllTerminated,
         NoBrackets;
    SIsTrimmed();
    ServicesFollow(lines);
    var file := SampleFile("s", ServicesLines(lines));
    SampleMeaning("s", ServicesLines(lines), None);
    ApplyMeansWhatItSays(file, "a", None);
    ServicesBody(lines);
    var before, after := Parse(file), Parse(Apply(file, "a", None));
    OutcomeUrl(before, after, 0, ReportedFor(file, Some("s"), None), InPlaceOf(before, "a", Some("s")));
  }

  const SUB := "  retries = 3\n"

  lemma {:induction false} SubLine()
    ensures InRun(SUB) && !IsEndpointLine(SUB) && !IsBracket(SUB) && Terminated(SUB)
  {
    hide Trim, KeyValue, Lower, IsWhitespace;
    RetriesKey();
    KeyValueOf("  ", "retries", " ", " ", "3", "\n");
    assert SUB == "  " + "retries" + " " + "=" + (" " + "3" + "\n");
    KeyValueTrim(SUB);
    TrimFirst("  ", "retries = 3\n");
    assert SUB == "  " + "retries = 3\n";
    assert |"retries"| != |"endpoint_url"|;
  }

  lemma {:induction false} RetriesKey()
    ensures Lower("retries") == "retries" && Trimmed("retries") && '=' !in "retries" && !IsWhitespace('r') && Trimmed("3")
    ensures AllWhitespace("  ") && AllWhitespace(" ") && AllWhitespace("\n")
  {
  }

  lemma {:induction false} BlankLine()
    ensures Trim("\n") == "" && Terminated("\n") && !IsBracket("\n")
  {
    TrimPadded("", "", "\n");
    assert "" + "" + "\n" == "\n";
  }

  lemma {:induction false} NewLines(service: string, url: string)
    requires ServiceName(service) && OneLine(url)
    ensures var l, e := service + " =\n", NewEndpointLine(url);
            Terminated(l) && !IsBracket(l) && Opens(l, service) && Terminated(e) && !IsBracket(e) && InRun(e) && IsEndpointLine(e)
  {
    hide Trim, Opens, InRun, IsEndpointLine, IsBracket, LineKeyValue;
    NewOpenerReads(service);
    NewLineReads(url);
  }

  /** Removing the endpoint from a file with a gap leaves it reported. */
  lemma {:induction false} GapFile(url: string)
    requires OneLine(url)
    ensures var file := SampleFile("s", ServicesLines(WithGap(SUB, "\n", url)));
            && Editable(file, "a", None) && |Parse(Apply(file, "a", None))| == 1
            && Parse(Apply(file, "a", None))[0].endpointUrl == Some(Trim(url))
  {
    hide Parse, Apply, SampleFile, Editable, UrlOf, Left, Trim, EditLines, Endpoints, ServicesLines, NewEndpointLine,
         Terminated, IsBracket, Opens, InRun, IsEndpointLine, ServiceName;
    Names();
    SubLine();
    BlankLine();
    NewLines(A, url);
    NewLines(C, url);
    var lines := WithGap(SUB, "\n", url);
    GapKeepsEndpoint(SUB, "\n", url);
    RemoveLinesMeaning(lines);
    RemovedFromFile(lines);
  }

  /** With nothing open above the gap the endpoint line is read for no service: the
      service is not contiguous, and the removal works. */
  lemma {:induction false} OrphanFile(url: string)
    requires OneLine(url)
    ensures var lines := [C + " =\n", "\n", NewEndpointLine(url)];
            var file := SampleFile("s", ServicesLines(lines));
            && !Contiguous(lines, C) && Clears(lines)
            && Editable(file, "a", None) && |Parse(Apply(file, "a", None))| == 1
            && Parse(Apply(file, "a", None))[0].endpointUrl == None
  {
    hide Parse, Apply, SampleFile, Editable, UrlOf, Trim, ServicesLines, NewEndpointLine, Terminated, IsBracket,
         Opens, InRun, IsEndpointLine, ServiceName, LineEndpoints, NextService, IsGap, Contiguous;
    Names();
    BlankLine();
    NewLines(C, url);
    var l, e := C + " =\n", NewEndpointLine(url);
    var lines := [l, "\n", e];
    OrphanGap(l, e, url);
    OrphanLeft(l, e);
    NoUrl();
    RemovedFromFile(lines);
  }

  lemma {:induction false} OrphanGap(l: string, e: string, url: string)
    requires Opens(l, C) && Trim("\n") == "" && e == NewEndpointLine(url) && InRun(e) && IsEndpointLine(e)
    ensures !Contiguous([l, "\n", e], C)
  {
    hide Trim, NewEndpointLine, Opens, IsEndpointLine, ServiceName, LineEndpoints, NextService, Contiguous,
         LineKeyValue, Of, IsIndented;
    var lines, post := [l, "\n", e], ["\n", e];
    NothingAbove();
    BlankNotInRun(["\n"] + [e]);
    assert ["\n"] + [e] == post;
    assert lines == [] + [l] + [] + post;
    SplitContiguous(lines, C, [], l, [], post);
    DocEdits.BlankReads("\n", Some(C));
    IndentedReads(e, Some(C));
    assert post[1..] == [e] && [e][1..] == [];
    assert Endpoints([e], Some(C)) == LineEndpoints(e, Some(C)) + Endpoints([], Some(C));
    assert Endpoints(post, Some(C)) == [] + Endpoints([e], Some(C));
    OfHead(Endpoints(post, Some(C)), C);
  }

  lemma {:induction false} NothingAbove()
    ensures NoOpener([], C) && AllInRun([])
  {
  }

  lemma {:induction false} OrphanLeft(l: string, e: string)
    requires Opens(l, C) && Trim("\n") == "" && InRun(e)
    ensures Left([l, "\n", e], None, {}) == []
  {
    hide Trim, Opens, InRun, LineEndpoints, NextService, Left;
    var lines, post := [l, "\n", e], ["\n", e];
    assert lines[1..] == post && post[1..] == [e] && [e][1..] == [];
    BlankNotInRun(post);
    assert RunLength(post) == 0;
    assert lines[1..1] == [] && NonEndpoints([]) == [];
    Names();
    OtherOpener(l, C, A);
    OtherOpener(l, C, B);
    DocEdits.BlankReads("\n", None);
    RunIndented(e);
    IndentedReads(e, None);
    BlankOpensNone();
    RunNoOpener([e], A);
    RunNoOpener([e], B);
    assert !Opens([e][0], A) && !Opens([e][0], B);
    LeftOpener(lines, C);
    LeftPlain(post, {C});
    LeftPlain([e], {C});
    LeftNone({C});
  }

  lemma {:induction false} LeftOpener(lines: seq<string>, service: string)
    requires lines != [] && FirstOpened(lines[0], {}) == Some(service)
    ensures var n := 1 + RunLength(lines[1..]);
            NonEndpoints(lines[1..n]) == [] ==> Left(lines, None, {}) == Left(lines[n..], None, {service})
  {
    hide FirstOpened;
    assert {} + {service} == {service};
  }

  lemma {:induction false} LeftPlain(lines: seq<string>, seen: set<string>)
    requires lines != [] && FirstOpened(lines[0], seen) == None
    requires LineEndpoints(lines[0], None) == [] && NextService(lines[0], None) == None
    ensures Left(lines, None, seen) == Left(lines[1..], None, seen)
  {
    hide FirstOpened, LineEndpoints, NextService;
    assert [] + Left(lines[1..], None, seen) == Left(lines[1..], None, seen);
  }

  lemma {:induction false} LeftNone(seen: set<string>)
    ensures Left([], None, seen) == []
  {
  }

  lemma {:induction false} BlankOpensNone()
    requires Trim("\n") == ""
    ensures forall service :: !Opens("\n", service)
  {
    hide Trim, KeyValue;
    BlankOpens("\n");
  }

  // ---------------------------------------------------------------------
  // A service that is not managed above the gap
  // ---------------------------------------------------------------------

  const S3: string := "s3"

  lemma {:induction false} S3IsOther()
    ensures ServiceName(S3) && S3 != A && S3 != B && S3 != C && !Managed(S3)
  {
    assert Lower(S3) == S3;
    ManagedAre(S3);
    assert |S3| == 2 && |A| > 2 && |B| > 2 && |C| == 3;
  }

  lemma {:induction false} LooseBehind(e: string)
    requires Trim("\n") == "" && InRun(e) && IsEndpointLine(e)
    ensures Loose(["\n", e]) > 0
  {
    hide Trim, KeyValue, InRun, IsEndpointLine, LineEndpoints, NextService;
    DocEdits.BlankReads("\n", None);
    DocEdits.BlankReads("\n", Some(""));
    RunIndented(e);
    IndentedReads(e, None);
    IndentedReads(e, Some(""));
    assert ["\n", e][1..] == [e] && [e][1..] == [];
    assert Loose([e]) == 1 + Loose([]);
  }

  lemma {:induction false} S3Moves(l: string, m: string, e: string)
    requires Opens(l, S3) && Opens(m, C) && Trim("\n") == "" && InRun(e) && IsEndpointLine(e)
    ensures !NoneMoves([l, m, "\n", e], None, {})
  {
    hide Trim, Opens, InRun, IsEndpointLine, LineEndpoints, NextService, ServiceName, Managed, Loose, RunLength;
    var lines, rest, post := [l, m, "\n", e], [m, "\n", e], ["\n", e];
    assert lines[1..] == rest && rest[1..] == post;
    Names();
    S3IsOther();
    OtherOpener(l, S3, A);
    OtherOpener(l, S3, B);
    OtherOpener(l, S3, C);
    OtherOpener(m, C, A);
    OtherOpener(m, C, B);
    OpenerReads(l, S3, None);
    BlankNotInRun(post);
    NoRun(post);
    LooseBehind(e);
    assert rest[1..1] == [] && NonEndpoints([]) == [];
    assert !NoneMoves(rest, Some(S3), {});
  }

  lemma {:induction false} NoRun(lines: seq<string>)
    requires lines != [] && !InRun(lines[0])
    ensures RunLength(lines) == 0
  {
    hide InRun;
  }

  /** Removing the endpoint of the profile gives an endpoint to a service that had none
      and that the edit does not manage. */
  lemma {:induction false} MovedFile(url: string)
    requires OneLine(url)
    ensures var file := SampleFile("s", ServicesLines([S3 + " =\n", C + " =\n", "\n", NewEndpointLine(url)]));
            var after := Apply(file, "a", None);
            && Editable(file, "a", None) && |Parse(file)| == 1 == |Parse(after)|
            && !SameOthers(EndpointsIn(after, Parse(after)[0].services), EndpointsIn(file, Parse(file)[0].services))
  {
    hide Parse, Apply, SampleFile, Editable, TargetIndex, ServicesLines, NewEndpointLine, Terminated, IsBracket,
         Opens, InRun, IsEndpointLine, ServiceName, ReferencedBody, Chunks, GoodRest, SampleLines, Doc, LinesIn,
         EndpointsIn, Entries, IsShared, EndedLine, SameOthers, NoneMoves, Trim, UrlOf, Left;
    Names();
    S3IsOther();
    BlankLine();
    NewLines(S3, url);
    NewLines(C, url);
    var l, m, e := S3 + " =\n", C + " =\n", NewEndpointLine(url);
    var lines := [l, m, "\n", e];
    S3Moves(l, m, e);
    SIsTrimmed();
    ServicesFollow(lines);
    SampleMeaning("s", ServicesLines(lines), None);
    ServicesBody(lines);
    RemovedFromFile(lines);
    OtherServicesKeptIff(SampleFile("s", ServicesLines(lines)), "a", None);
  }

  // ---------------------------------------------------------------------
  // A service written twice
  // ---------------------------------------------------------------------

  lemma {:induction false} TwiceDoesNotSettle(l: string, e: string)
    requires Opens(l, C) && InRun(e) && IsEndpointLine(e)
    ensures !AllSettle([l, e, l, e])
  {
    hide Opens, InRun, IsEndpointLine, Settles, NothingToDo;
    var rest := [l, e];
    Names();
    OtherOpener(l, C, A);
    assert [l] + [e] + [] == rest && [l] + [e] + rest == [l, e, l, e];
    assert [e][1..] == [] && NonEndpoints([e]) == [] + NonEndpoints([]);
    assert IsEndpointLine([e][0]);
    AtOpener(l, [e], [], C);
    AtOpener(l, [e], rest, C);
  }

  /** A removal takes the first of two sub-sections of a service, and a second removal
      the other. */
  lemma {:induction false} DuplicateFile(url: string)
    requires OneLine(url)
    ensures var e := NewEndpointLine(url);
            var file := SampleFile("s", ServicesLines([C + " =\n", e, C + " =\n", e]));
            var once := Apply(file, "a", None);
            Editable(file, "a", None) && Apply(once, "a", None) != once
  {
    hide Parse, Apply, SampleFile, Editable, TargetIndex, ServicesLines, NewEndpointLine, Terminated, IsBracket,
         Opens, InRun, IsEndpointLine, ServiceName, AllSettle, ReferencedBody, Chunks, GoodRest, SampleLines, Doc,
         Entries, IsShared, EndedLine;
    Names();
    NewLines(C, url);
    var l, e := C + " =\n", NewEndpointLine(url);
    var lines := [l, e, l, e];
    TwiceDoesNotSettle(l, e);
    SIsTrimmed();
    ServicesFollow(lines);
    SampleMeaning("s", ServicesLines(lines), None);
    ServicesBody(lines);
    ApplyTwice(SampleFile("s", ServicesLines(lines)), "a", None);
  }
}

/** Appending a section to the config file unless it is there. */
module ConfigAppend {
  import opened Text
  import opened Sections
  import opened MergeWriter
  import opened ProfileWriter
  import opened EndpointEditor
  import opened EndpointOps
  import opened EndpointMeaning
  import opened EndpointIdempotence
  import opened HeaderCounts
  import EndpointMethods

  /** A call to append a section: its name, the lines of its body, and for a profile
      the endpoint to set (none if empty). */
  datatype Call = AppendProfile(name: string, body: string, url: string) | AppendSession(name: string, body: string)

  /** The header that is written. */
  function Header(call: Call): string {
    match call
    case AppendProfile(name, _, _) => if name == "default" then "[default]" else "[profile " + name + "]"
    case AppendSession(name, _) => SsoSessionHeader(name)
  }

  /** The header that is looked for. */
  function Needle(call: Call): string {
    match call
    case AppendProfile(name, _, _) => ProfileHeader(name)
    case AppendSession(name, _) => SsoSessionHeader(name)
  }

  predicate HasHeader(contents: string, header: string) {
    exists i | 0 <= i < |Lines(contents)| :: Lower(Trim(Lines(contents)[i])) == Lower(header)
  }

  function Block(call: Call): string {
    "\n" + Header(call) + "\n" + call.body
  }

  /** The content after a call, and whether the section was appended. */
  function Transform(existing: string, call: Call): (string, bool) {
    if HasHeader(existing, Needle(call)) then (existing, false) else
      var content := EndedLine(existing) + Block(call);
      (if call.AppendProfile? && call.url != "" then Apply(content, call.name, Some(call.url)) else content, true)
  }

  method FindHeaderLine(contents: string, header: string) returns (found: bool)
    ensures found == HasHeader(contents, header)
  {
    hide Lower, Trim;
    var lines := Lines(contents);
    var i := 0;
    while i < |lines|
      invariant i <= |lines|
      invariant forall k | 0 <= k < i :: Lower(Trim(Lines(contents)[k])) != Lower(header)
    {
      if Lower(Trim(lines[i])) == Lower(header) {
        return true;
      }
      i := i + 1;
    }
    return false;
  }

  /** The closure `append_config_block_if_absent` and its sibling for sessions pass
      to the writer. */
  method AppendIfAbsent(existing: string, call: Call) returns (content: string, appended: bool)
    ensures (content, appended) == Transform(existing, call)
  {
    hide Apply, HasHeader;
    var found := FindHeaderLine(existing, Needle(call));
    if found {
      return existing, false;
    }
    content := existing;
    if content != "" && content[|content| - 1] != '\n' {
      content := content + "\n";
    }
    content := content + Block(call);
    if call.AppendProfile? && call.url != "" {
      content := EndpointMethods.ApplyValueSourceEndpoint(content, call.name, Some(call.url));
    }
    appended := true;
  }

  // ---------------------------------------------------------------------
  // One call
  // ---------------------------------------------------------------------

  predicate GoodCall(call: Call) {
    && GoodName(call.name) && NoBrackets(Chunks(call.body)) && EndsLine(call.body)
    && (call.AppendProfile? ==> OneLine(call.url))
  }

  /** The call looks for the header it writes: any name but `default` in another case. */
  predicate Consistent(call: Call) {
    call.AppendProfile? && EqIgnoreCase(call.name, "default") ==> call.name == "default"
  }

  lemma {:induction false} ConsistentHeaders(call: Call)
    requires Consistent(call)
    ensures Header(call) == Needle(call)
  {
  }

  lemma {:induction false} HasHeaderCount(contents: string, header: string)
    ensures HasHeader(contents, header) <==> Count(Chunks(contents), header) > 0
  {
    hide Chunks, Count, Trim, Lower;
    var cs := Chunks(contents);
    CountFound(cs, header);
    SectionIffHeader(cs, header);
    forall i | 0 <= i < |cs| ensures Trim(Lines(contents)[i]) == Trim(cs[i]) { TrimLine(cs[i]); }
    if HasHeader(contents, header) {
      var i :| 0 <= i < |Lines(contents)| && Lower(Trim(Lines(contents)[i])) == Lower(header);
      assert cs[i] in cs;
    }
    if c :| c in cs && Lower(Trim(c)) == Lower(header) {
      var i :| 0 <= i < |cs| && cs[i] == c;
      assert Lower(Trim(Lines(contents)[i])) == Lower(header);
    }
  }

  lemma {:induction false} HeaderGood(call: Call)
    requires GoodName(call.name)
    ensures GoodHeader(Header(call)) && IsHeaderName(Header(call)) && GoodHeader(Needle(call)) && IsHeaderName(Needle(call))
  {
  }

  lemma {:induction false} CountBlockOf(call: Call, header: string)
    requires GoodCall(call) && IsHeaderName(header)
    ensures Count(Chunks(Block(call)), header) == if EqIgnoreCase(Header(call), header) then 1 else 0
  {
    hide Chunks, Count, NoBrackets, Lower, Header, GoodName, GoodHeader, OneSection, IsBracket;
    HeaderGood(call);
    var h := Header(call);
    HeaderOneLine(h);
    HeaderTerminated(h);
    ChunksCons(h + "\n", call.body);
    HeadedSection(h, Chunks(call.body));
    CountSection([h + "\n"] + Chunks(call.body), h, header);
    CountBlank(header);
    var section := h + "\n" + call.body;
    CountJoined("\n", section, header);
    assert Block(call) == "\n" + section;
  }

  /** Setting the endpoint of an appended profile adds the header that was looked
      for: only where that is not the header that was written. */
  predicate AddsStray(existing: string, call: Call) {
    !Consistent(call) && call.url != "" && Relinks(EndedLine(existing) + Block(call), call.name, call.url)
  }

  /** A call appends exactly if the header it looks for is not there, takes no header
      away, and adds its own once; it adds no other but a stray one. */
  lemma {:induction false} TransformCount(existing: string, call: Call, header: string)
    requires GoodCall(call) && IsHeaderName(header)
    ensures var (content, appended) := Transform(existing, call);
            var before, after := Count(Chunks(existing), header), Count(Chunks(content), header);
            && (appended <==> Count(Chunks(existing), Needle(call)) == 0)
            && after >= before
            && (NotServices(header) ==>
                  after == before + (if appended && EqIgnoreCase(Header(call), header) then 1 else 0)
                           + if appended && AddsStray(existing, call) && EqIgnoreCase(Needle(call), header) then 1 else 0)
  {
    hide Chunks, Count, NoBrackets, Lower, Header, Needle, GoodName, GoodHeader, HasHeader, Apply, Block, NotServices,
         Consistent, EndedLine, ProfileHeader, OneLine, IsHeaderName, EqIgnoreCase, Relinks;
    HasHeaderCount(existing, Needle(call));
    if !HasHeader(existing, Needle(call)) {
      HeaderGood(call);
      var content := EndedLine(existing) + Block(call);
      AppendedCount(existing, call, header);
      if call.AppendProfile? && call.url != "" {
        NeedleIs(call);
        CountApplied(content, call.name, call.url, header);
        StrayOnlyElsewhere(existing, call, header);
      } else {
        PlainIsConsistent(call);
      }
    }
  }

  lemma {:induction false} PlainIsConsistent(call: Call)
    ensures !call.AppendProfile? ==> Consistent(call)
  {
  }

  lemma {:induction false} NeedleIs(call: Call)
    ensures call.AppendProfile? ==> Needle(call) == ProfileHeader(call.name)
  {
  }

  lemma {:induction false} AppendedCount(existing: string, call: Call, header: string)
    requires GoodCall(call) && IsHeaderName(header)
    ensures Count(Chunks(EndedLine(existing) + Block(call)), header)
         == Count(Chunks(existing), header) + if EqIgnoreCase(Header(call), header) then 1 else 0
  {
    hide Chunks, Count, GoodCall, Header, Block, EndedLine, EqIgnoreCase;
    CountEnded(existing, header);
    CountJoined(EndedLine(existing), Block(call), header);
    CountBlockOf(call, header);
  }

  /** The header that is looked for is there after appending exactly if it is the one
      that was written. */
  lemma {:induction false} StrayOnlyElsewhere(existing: string, call: Call, header: string)
    requires GoodCall(call) && call.AppendProfile? && IsHeaderName(header) && Count(Chunks(existing), Needle(call)) == 0
    ensures Stray(EndedLine(existing) + Block(call), call.name, header)
         == if !Consistent(call) && EqIgnoreCase(Needle(call), header) then 1 else 0
  {
    hide Chunks, Count, Block, EndedLine, Header, Needle, Consistent, GoodCall, ProfileHeader, Lower;
    NeedleIs(call);
    GoodCallName(call);
    HeaderGood(call);
    AppendedCount(existing, call, Needle(call));
    if Consistent(call) {
      ConsistentHeaders(call);
    } else {
      OtherCaseDiffers(call);
    }
  }

  lemma {:induction false} GoodCallName(call: Call)
    requires GoodCall(call)
    ensures GoodName(call.name)
  {
  }

  // ---------------------------------------------------------------------
  // Calls one after another
  // ---------------------------------------------------------------------

  /** The content after the calls, and what each returned. */
  function Serial(initial: string, calls: seq<Call>): (string, seq<bool>) {
    if calls == [] then (initial, []) else
      var (content, results) := Serial(initial, calls[..|calls| - 1]);
      var (content', appended) := Transform(content, calls[|calls| - 1]);
      (content', results + [appended])
  }

  ghost predicate AllGood(calls: seq<Call>) {
    forall k | 0 <= k < |calls| :: GoodCall(calls[k])
  }

  predicate Asked(calls: seq<Call>, header: string) {
    exists k | 0 <= k < |calls| :: EqIgnoreCase(Header(calls[k]), header)
  }

  /** How many calls for this header returned true. */
  function Appends(calls: seq<Call>, results: seq<bool>, header: string): nat
    requires |calls| == |results|
  {
    if calls == [] then 0 else
      var n := |calls| - 1;
      Appends(calls[..n], results[..n], header) + if EqIgnoreCase(Header(calls[n]), header) && results[n] then 1 else 0
  }

  lemma {:induction false} SerialLength(initial: string, calls: seq<Call>)
    ensures |Serial(initial, calls).1| == |calls|
  {
    hide Transform;
    if calls != [] { SerialLength(initial, calls[..|calls| - 1]); }
  }

  /** Some call added a stray `[default]`. */
  predicate StrayAdded(initial: string, calls: seq<Call>) {
    calls != [] &&
    var n := |calls| - 1;
    var content := Serial(initial, calls[..n]).0;
    StrayAdded(initial, calls[..n]) || (Transform(content, calls[n]).1 && AddsStray(content, calls[n]))
  }

  /** What calls with these results do to the sections of a header. */
  ghost predicate AppendedOnce(initial: string, calls: seq<Call>, content: string, results: seq<bool>, header: string)
    requires |results| == |calls|
  {
    var before, after := Count(Chunks(initial), header), Count(Chunks(content), header);
    && after >= before
    && (NotServices(header) ==>
          if EqIgnoreCase(OTHER_CASE, header) then after == before + Appends(calls, results, header)
          else
            var stray := EqIgnoreCase("[default]", header) && StrayAdded(initial, calls);
            var added := if before == 0 && (Asked(calls, header) || stray) then 1 else 0;
            && after == before + added
            && Appends(calls, results, header) + (if stray then 1 else 0) == added)
  }

  const OTHER_CASE: string := "[profile default]"

  /** The header of a call for `default` in another case, and only of such a call. */
  lemma {:induction false} OtherCaseHeader(call: Call)
    ensures !Consistent(call) <==> EqIgnoreCase(Header(call), OTHER_CASE)
  {
    hide Lower;
    match call {
      case AppendProfile(name, _, _) =>
        if name == "default" {
          assert Lower("[default]") != Lower(OTHER_CASE) by { LengthsDiffer(); }
        } else {
          SameProfileHeader(name);
        }
      case AppendSession(name, _) =>
        SessionHeader(name);
    }
  }

  lemma {:induction false} LengthsDiffer()
    ensures Lower("[default]") != Lower(OTHER_CASE)
  {
    assert |Lower("[default]")| == 9 && |Lower(OTHER_CASE)| == 17;
  }

  lemma {:induction false} SameProfileHeader(name: string)
    ensures EqIgnoreCase("[profile " + name + "]", OTHER_CASE) <==> EqIgnoreCase(name, "default")
  {
    hide Lower;
    LowerConcat("[profile " + name, "]");
    LowerConcat("[profile ", name);
    LowerConcat("[profile " + "default", "]");
    LowerConcat("[profile ", "default");
    assert OTHER_CASE == "[profile " + "default" + "]";
    var a, z := Lower("[profile "), Lower("]");
    var x, y := a + Lower(name) + z, a + Lower("default") + z;
    if x == y {
      assert x[|a|..|x| - |z|] == Lower(name) && y[|a|..|y| - |z|] == Lower("default");
    }
  }

  lemma {:induction false} SessionHeader(name: string)
    ensures !EqIgnoreCase(SsoSessionHeader(name), OTHER_CASE)
  {
    var h := SsoSessionHeader(name);
    assert Lower(h)[1] == 's' && Lower(OTHER_CASE)[1] == 'p';
  }

  /** Calls in any order lose no header. Of each header but that of `default` in
      another case, one section is there afterwards if none was there before and it
      was asked for, or a stray one was added, and else none is added; of the calls
      for it exactly that many returned true, the stray aside. Of `default` in another
      case each call that returned true added one. */
  lemma {:induction false} SerialAppends(initial: string, calls: seq<Call>, header: string)
    requires AllGood(calls) && IsHeaderName(header)
    ensures var (content, results) := Serial(initial, calls);
            |results| == |calls| && AppendedOnce(initial, calls, content, results, header)
    decreases |calls|
  {
    hide Chunks, Count, Lower, Header, Needle, GoodCall, Consistent, Transform, NotServices, EqIgnoreCase,
         IsHeaderName, Relinks, AddsStray;
    if calls != [] {
      var n := |calls| - 1;
      var init, call := calls[..n], calls[n];
      assert calls == init + [call];
      SerialAppends(initial, init, header);
      SerialLength(initial, init);
      var (content, results) := Serial(initial, init);
      assert GoodCall(call);
      TransformCount(content, call, header);
      AskedSnoc(init, call, header);
      var (content', appended) := Transform(content, call);
      assert (results + [appended])[..n] == results;
      CallStep(content, call, header);
    }
  }

  /** What one call means for one header. */
  lemma {:induction false} CallStep(content: string, call: Call, header: string)
    ensures EqIgnoreCase(Header(call), header) && !EqIgnoreCase(OTHER_CASE, header) ==>
              Count(Chunks(content), Needle(call)) == Count(Chunks(content), header)
    ensures EqIgnoreCase(Needle(call), header) && AddsStray(content, call) ==>
              && EqIgnoreCase("[default]", header) && !EqIgnoreCase(Header(call), header)
              && Count(Chunks(content), Needle(call)) == Count(Chunks(content), header)
    ensures AddsStray(content, call) && EqIgnoreCase("[default]", header) ==> EqIgnoreCase(Needle(call), header)
    ensures EqIgnoreCase(OTHER_CASE, header) && AddsStray(content, call) ==> !EqIgnoreCase(Needle(call), header)
  {
    hide Chunks, Count, Header, Needle, Relinks, Block, EndedLine, Consistent, Lower;
    OtherCaseHeader(call);
    LengthsDiffer();
    if Consistent(call) {
      ConsistentHeaders(call);
    } else {
      OtherCaseDiffers(call);
    }
    if EqIgnoreCase(Needle(call), header) {
      SameHeaderCount(Chunks(content), Needle(call), header);
    }
  }

  /** Calls for `default` in another case return true as long as there is no
      `[default]`, and never again once one of them returned false. */
  lemma {:induction false} OtherCaseCalls(initial: string, calls: seq<Call>, i: nat, j: nat)
    requires AllGood(calls) && i <= j < |calls| && !Consistent(calls[i]) && !Consistent(calls[j])
    ensures var results := Serial(initial, calls).1;
            && |results| == |calls| && (results[j] ==> results[i])
            && (results[j] <==> Count(Chunks(Serial(initial, calls[..j]).0), "[default]") == 0)
  {
    hide Chunks, Count, Lower, Header, Needle, GoodCall, Consistent, Transform, NotServices, EqIgnoreCase, Serial;
    SerialLength(initial, calls);
    ResultAt(initial, calls, i);
    ResultAt(initial, calls, j);
    OtherCaseDiffers(calls[i]);
    OtherCaseDiffers(calls[j]);
    assert GoodCall(calls[i]) && GoodCall(calls[j]);
    TransformCount(Serial(initial, calls[..i]).0, calls[i], "[default]");
    TransformCount(Serial(initial, calls[..j]).0, calls[j], "[default]");
    CountsGrow(initial, calls, i, j, "[default]");
  }

  lemma {:induction false} ResultAt(initial: string, calls: seq<Call>, k: nat)
    requires k < |calls|
    ensures |Serial(initial, calls).1| == |calls|
    ensures Serial(initial, calls).1[k] == Transform(Serial(initial, calls[..k]).0, calls[k]).1
    decreases |calls|
  {
    hide Transform;
    var n := |calls| - 1;
    SerialLength(initial, calls);
    SerialLength(initial, calls[..n]);
    if k < n {
      ResultAt(initial, calls[..n], k);
      assert calls[..n][..k] == calls[..k];
    }
  }

  lemma {:induction false} CountsGrow(initial: string, calls: seq<Call>, i: nat, j: nat, header: string)
    requires AllGood(calls) && i <= j <= |calls| && IsHeaderName(header)
    ensures Count(Chunks(Serial(initial, calls[..i]).0), header) <= Count(Chunks(Serial(initial, calls[..j]).0), header)
    decreases j
  {
    hide Chunks, Count, GoodCall, Transform, NotServices, EqIgnoreCase, IsHeaderName, AddsStray, Header, Needle;
    if i < j {
      CountsGrow(initial, calls, i, j - 1, header);
      var before := calls[..j];
      assert before[..j - 1] == calls[..j - 1] && before[j - 1] == calls[j - 1];
      assert GoodCall(calls[j - 1]);
      TransformCount(Serial(initial, calls[..j - 1]).0, calls[j - 1], header);
    }
  }

  lemma {:induction false} SameHeaderCount(cs: seq<string>, a: string, b: string)
    requires EqIgnoreCase(a, b)
    ensures Count(cs, a) == Count(cs, b)
  {
    hide Lower, Trim;
    if cs != [] { SameHeaderCount(cs[1..], a, b); }
  }

  lemma {:induction false} AskedSnoc(calls: seq<Call>, call: Call, header: string)
    ensures Asked(calls + [call], header) <==> Asked(calls, header) || EqIgnoreCase(Header(call), header)
  {
    hide EqIgnoreCase, Header;
    var all := calls + [call];
    if EqIgnoreCase(Header(call), header) { assert EqIgnoreCase(Header(all[|calls|]), header); }
    if Asked(calls, header) {
      var k :| 0 <= k < |calls| && EqIgnoreCase(Header(calls[k]), header);
      assert EqIgnoreCase(Header(all[k]), header);
    }
  }

  // ---------------------------------------------------------------------
  // `default` in another case
  // ---------------------------------------------------------------------

  lemma {:induction false} OtherCaseDiffers(call: Call)
    requires !Consistent(call)
    ensures Needle(call) == "[default]" && !EqIgnoreCase(Header(call), "[default]")
  {
    hide Trim;
    var h := Header(call);
    assert |Lower(h)| == |h| && |h| > |"[default]"| && |Lower("[default]")| == |"[default]"|;
  }

  lemma {:induction false} HeaderNotServices(call: Call)
    ensures NotServices(Header(call)) && NotServices("[default]")
  {
    hide Lower;
    match call {
      case AppendProfile(name, _, _) => OtherWord("[profile ", name + "]");
      case AppendSession(name, _) => OtherWord("[sso-session ", name + "]");
    }
    OtherWord("[default]", "");
    assert "[default]" + "" == "[default]";
    assert call.AppendProfile? ==> "[profile " + (call.name + "]") == "[profile " + call.name + "]";
    assert call.AppendSession? ==> "[sso-session " + (call.name + "]") == SsoSessionHeader(call.name);
  }

  lemma {:induction false} OtherWord(word: string, rest: string)
    requires |word| > 2 && (LowerChar(word[1]) != 's' || word == "[sso-session ")
    ensures NotServices(word + rest)
  {
    var h := word + rest;
    assert Lower(h)[1] == LowerChar(word[1]) && Lower(h)[2] == LowerChar(word[2]);
    assert "[services "[1] == 's' && "[services "[2] == 'e';
  }

  /** Two calls in a row for the same section. With the header of `default` spelled in
      another case three things can happen: nothing is appended as long as
      `[default]` is there; the first call adds a stray `[default]`, and the second
      appends nothing; or both append. */
  lemma {:induction false} OtherCaseTwice(existing: string, call: Call)
    requires GoodCall(call) && !Consistent(call)
    ensures var (once, first) := Transform(existing, call);
            var (twice, second) := Transform(once, call);
            var own, added := Header(call), Count(Chunks(twice), Header(call)) - Count(Chunks(existing), Header(call));
            if Count(Chunks(existing), "[default]") > 0 then !first && !second && added == 0 && twice == existing
            else if AddsStray(existing, call) then first && !second && added == 1 && Count(Chunks(twice), "[default]") == 1
            else first && second && added == 2
  {
    hide Chunks, Count, Lower, Header, Needle, GoodCall, Consistent, Transform, NotServices, EqIgnoreCase,
         IsHeaderName, AddsStray;
    var (once, first) := Transform(existing, call);
    OtherCaseDiffers(call);
    GoodCallName(call);
    HeaderGood(call);
    HeaderNotServices(call);
    SameHeader(Header(call));
    SameHeader("[default]");
    DefaultDiffers(call);
    TransformCount(existing, call, "[default]");
    TransformCount(existing, call, Header(call));
    TransformCount(once, call, Header(call));
    NotAppended(existing, call);
    NotAppended(once, call);
  }

  lemma {:induction false} DefaultDiffers(call: Call)
    requires !Consistent(call)
    ensures !EqIgnoreCase("[default]", Header(call))
  {
    hide Lower;
    OtherCaseDiffers(call);
  }

  lemma {:induction false} NotAppended(existing: string, call: Call)
    ensures !Transform(existing, call).1 ==> Transform(existing, call).0 == existing
  {
    hide HasHeader, Apply, Block;
  }

  /** Two calls in a row leave one section more under the header of the call exactly
      if what it looks for is not there and, for `default` in another case, setting
      the endpoint adds it. */
  lemma {:induction false} AppendedOnceIff(existing: string, call: Call)
    requires GoodCall(call)
    ensures var twice := Transform(Transform(existing, call).0, call).0;
            Count(Chunks(twice), Header(call)) == Count(Chunks(existing), Header(call)) + 1
            <==> Count(Chunks(existing), Needle(call)) == 0 && (Consistent(call) || AddsStray(existing, call))
  {
    hide Chunks, Count, Lower, Header, Needle, GoodCall, Consistent, Transform, NotServices, EqIgnoreCase,
         IsHeaderName, Relinks;
    if Consistent(call) {
      var once := Transform(existing, call).0;
      ConsistentHeaders(call);
      GoodCallName(call);
      HeaderGood(call);
      HeaderNotServices(call);
      SameHeader(Header(call));
      TransformCount(existing, call, Header(call));
      TransformCount(once, call, Header(call));
    } else {
      OtherCaseDiffers(call);
      OtherCaseTwice(existing, call);
    }
  }

  lemma {:induction false} SameHeader(h: string)
    ensures EqIgnoreCase(h, h)
  {
  }
}

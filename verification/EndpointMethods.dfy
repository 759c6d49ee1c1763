/** The endpoint editor as it works: lines edited in place, a search loop for a
    free name, sections cut out of the text by their offsets. */
module EndpointMethods {
  import opened Text
  import opened Sections
  import opened AwsParser
  import opened ProfileWriter
  import opened ServicesEditor
  import opened EndpointEditor
  import Decimal

  // ---------------------------------------------------------------------
  // Lines
  // ---------------------------------------------------------------------

  method FindOpener(lines: seq<string>, service: string) returns (header: nat)
    ensures header == OpenerIndex(lines, service)
  {
    hide Opens;
    header := 0;
    while header < |lines| && !Opens(lines[header], service)
      invariant header <= |lines|
      invariant OpenerIndex(lines, service) == header + OpenerIndex(lines[header..], service)
    {
      assert lines[header..][1..] == lines[header + 1..];
      header := header + 1;
    }
  }

  method FindRunEnd(lines: seq<string>, from: nat) returns (end: nat)
    requires from <= |lines|
    ensures end == from + RunLength(lines[from..])
  {
    hide InRun;
    end := from;
    while end < |lines| && InRun(lines[end])
      invariant from <= end <= |lines|
      invariant RunLength(lines[from..]) == end - from + RunLength(lines[end..])
    {
      assert lines[end..][1..] == lines[end + 1..];
      end := end + 1;
    }
  }

  /** The lines from the opener of a service up to the end of its sub-section. */
  method FindService(lines: seq<string>, service: string) returns (found: Option<(nat, nat)>)
    ensures var i := OpenerIndex(lines, service);
            found == if i == |lines| then None else Some((i, i + 1 + RunLength(lines[i + 1..])))
  {
    hide OpenerIndex, RunLength;
    var header := FindOpener(lines, service);
    if header == |lines| {
      return None;
    }
    var end := FindRunEnd(lines, header + 1);
    return Some((header, end));
  }

  /** The end of the lines that hold text. */
  method ContentEnd(lines: seq<string>) returns (n: nat)
    ensures n == ContentLength(lines)
  {
    hide Trim;
    n := |lines|;
    assert lines[..n] == lines;
    while n > 0 && Trim(lines[n - 1]) == ""
      invariant n <= |lines|
      invariant ContentLength(lines) == ContentLength(lines[..n])
    {
      assert lines[..n][..n - 1] == lines[..n - 1];
      n := n - 1;
    }
  }

  /** The first endpoint line of a sub-section, or its end. */
  method FindEndpointLine(run: seq<string>, ghost url: string) returns (k: nat)
    ensures k <= |run| && SetRun(run, url) == run[..k] + SetRun(run[k..], url)
    ensures k < |run| ==> IsEndpointLine(run[k])
  {
    hide IsEndpointLine, RewriteLine, NewEndpointLine;
    k := 0;
    while k < |run| && !IsEndpointLine(run[k])
      invariant k <= |run|
      invariant SetRun(run, url) == run[..k] + SetRun(run[k..], url)
    {
      assert run[k..][1..] == run[k + 1..];
      ConcatAssoc(run[..k], [run[k]], SetRun(run[k + 1..], url));
      assert run[..k] + [run[k]] == run[..k + 1];
      k := k + 1;
    }
  }

  lemma {:induction false} Spliced<T>(lines: seq<T>, i: nat, j: nat, k: nat, x: T)
    requires i <= j <= |lines| && k <= j - i
    ensures var run := lines[i..j];
            && (k < j - i ==> lines[i + k := x] == lines[..i] + (run[..k] + ([x] + run[k..][1..])) + lines[j..])
            && (k == j - i ==> lines[..j] + [x] + lines[j..] == lines[..i] + (run[..k] + [x]) + lines[j..])
  {
  }

  lemma {:induction false} Inserted<T>(lines: seq<T>, n: nat, x: T, y: T)
    requires n <= |lines|
    ensures var once := lines[..n] + [x] + lines[n..];
            once[..n + 1] + [y] + once[n + 1..] == lines[..n] + [x, y] + lines[n..]
  {
  }

  lemma {:induction false} SetRunFront(run: seq<string>, url: string)
    ensures run == [] ==> SetRun(run, url) == [NewEndpointLine(url)]
    ensures run != [] && IsEndpointLine(run[0]) ==> SetRun(run, url) == [RewriteLine(run[0], url)] + run[1..]
  {
  }

  /** Sets the endpoint among `lines[from..end]`. */
  method SetInRun(lines: seq<string>, from: nat, end: nat, url: string) returns (lines': seq<string>)
    requires from <= end <= |lines|
    ensures lines' == lines[..from] + SetRun(lines[from..end], url) + lines[end..]
  {
    hide IsEndpointLine, RewriteLine, NewEndpointLine, SetRun;
    ghost var run := lines[from..end];
    var k := FindEndpointLine(lines[from..end], url);
    SetRunFront(run[k..], url);
    if from + k < end {
      lines' := lines[from + k := RewriteLine(lines[from + k], url)];
      Spliced(lines, from, end, k, RewriteLine(lines[from + k], url));
    } else {
      lines' := lines[..end] + [NewEndpointLine(url)] + lines[end..];
      Spliced(lines, from, end, k, NewEndpointLine(url));
    }
  }

  method SetServiceEndpoint(lines: seq<string>, service: string, url: string) returns (lines': seq<string>)
    ensures lines' == SetService(lines, service, url)
  {
    hide OpenerIndex, RunLength, Trim, NewEndpointLine, ContentLength, SetRun;
    var found := FindService(lines, service);
    if found.None? {
      var insertAt := ContentEnd(lines);
      Inserted(lines, insertAt, service + " =\n", NewEndpointLine(url));
      lines' := lines[..insertAt] + [service + " =\n"] + lines[insertAt..];
      lines' := lines'[..insertAt + 1] + [NewEndpointLine(url)] + lines'[insertAt + 1..];
      return;
    }
    var (header, end) := found.value;
    lines' := SetInRun(lines, header + 1, end, url);
  }

  /** The lines before position `index` that `retain` keeps. */
  ghost function Retained(lines: seq<string>, header: nat, end: nat, index: nat): seq<string>
    requires header < end <= |lines| && index <= |lines|
  {
    if index <= header + 1 then lines[..index]
    else if index <= end then lines[..header + 1] + NonEndpoints(lines[header + 1..index])
    else lines[..header + 1] + NonEndpoints(lines[header + 1..end]) + lines[end..index]
  }

  ghost function RemainingLines(lines: seq<string>, header: nat, end: nat, index: nat): nat
    requires header < end <= |lines| && index <= |lines|
  {
    if index <= header + 1 then 0
    else |NonEndpoints(lines[header + 1..if index <= end then index else end])|
  }

  lemma {:induction false} NonEndpointsSnoc(run: seq<string>, line: string)
    ensures NonEndpoints(run + [line]) == NonEndpoints(run) + (if IsEndpointLine(line) then [] else [line])
  {
    hide IsEndpointLine;
    if run == [] {
      assert [] + [line] == [line] && [line][1..] == [];
    } else {
      assert (run + [line])[1..] == run[1..] + [line];
      NonEndpointsSnoc(run[1..], line);
    }
  }

  lemma {:induction false} RetainedStep(lines: seq<string>, header: nat, end: nat, index: nat)
    requires header < end <= |lines| && index < |lines|
    ensures var drop := header < index < end && IsEndpointLine(lines[index]);
            && Retained(lines, header, end, index + 1) == Retained(lines, header, end, index) + (if drop then [] else [lines[index]])
            && RemainingLines(lines, header, end, index + 1)
            == RemainingLines(lines, header, end, index) + (if header < index < end && !drop then 1 else 0)
  {
    hide IsEndpointLine, NonEndpoints;
    NoEndpointLines();
    if header < index < end {
      NonEndpointsSnoc(lines[header + 1..index], lines[index]);
      assert lines[header + 1..index] + [lines[index]] == lines[header + 1..index + 1];
      ConcatAssoc(lines[..header + 1], NonEndpoints(lines[header + 1..index]), if IsEndpointLine(lines[index]) then [] else [lines[index]]);
    } else if index == end {
      assert lines[end..end + 1] == [lines[end]];
    } else if index > end {
      ConcatAssoc(lines[..header + 1] + NonEndpoints(lines[header + 1..end]), lines[end..index], [lines[index]]);
      assert lines[end..index] + [lines[index]] == lines[end..index + 1];
    } else {
      assert lines[..index] + [lines[index]] == lines[..index + 1];
    }
  }

  lemma {:induction false} RetainedAll(lines: seq<string>, header: nat, end: nat)
    requires header < end <= |lines|
    ensures var kept := NonEndpoints(lines[header + 1..end]);
            && Retained(lines, header, end, |lines|) == lines[..header] + ([lines[header]] + kept) + lines[end..]
            && RemainingLines(lines, header, end, |lines|) == |kept|
  {
    hide IsEndpointLine, NonEndpoints;
    NoEndpointLines();
    assert lines[..header + 1] == lines[..header] + [lines[header]];
    assert lines[end..|lines|] == lines[end..];
  }

  method RemoveServiceEndpoint(lines: seq<string>, service: string) returns (lines': seq<string>)
    ensures lines' == RemoveService(lines, service)
  {
    hide OpenerIndex, RunLength, IsEndpointLine, NonEndpoints, Retained, RemainingLines;
    var found := FindService(lines, service);
    if found.None? {
      return lines;
    }
    var (header, end) := found.value;
    lines' := [];
    var index, remaining := 0, 0;
    RetainedNone(lines, header, end);
    while index < |lines|
      invariant index <= |lines|
      invariant lines' == Retained(lines, header, end, index)
      invariant remaining == RemainingLines(lines, header, end, index)
    {
      var line := lines[index];
      var inService := header < index < end;
      RetainedStep(lines, header, end, index);
      assert lines' + [] == lines';
      index := index + 1;
      if inService && IsEndpointLine(line) {
        continue;
      }
      if inService {
        remaining := remaining + 1;
      }
      lines' := lines' + [line];
    }
    RetainedAll(lines, header, end);
    if remaining == 0 {
      lines' := lines'[..header] + lines'[header + 1..];
      assert lines[..header] + [] == lines[..header];
    }
  }

  lemma {:induction false} RetainedNone(lines: seq<string>, header: nat, end: nat)
    requires header < end <= |lines|
    ensures Retained(lines, header, end, 0) == [] && RemainingLines(lines, header, end, 0) == 0
  {
  }

  lemma {:induction false} NoEndpointLines()
    ensures NonEndpoints([]) == []
  {
  }

  /** The lines after the first `n` services have been edited. */
  ghost function EditedFor(lines: seq<string>, n: nat, url: Option<string>): seq<string>
    requires n <= 3
  {
    if n == 0 then lines else EditService(EditedFor(lines, n - 1, url), VALUE_SOURCE_SERVICES[n - 1], url)
  }

  lemma {:induction false} CompletedLines(body: string)
    ensures var cs := Chunks(body);
            Chunks(EndedLine(body)) ==
              if cs != [] && !EndsLine(cs[|cs| - 1]) then cs[|cs| - 1 := cs[|cs| - 1] + "\n"] else cs
  {
    hide Chunks, Flatten, Trim;
    var cs := Chunks(body);
    FlattenChunks(body);
    if cs != [] {
      var init, last := cs[..|cs| - 1], cs[|cs| - 1];
      assert cs == init + [last];
      FlattenLast(init, last);
      if !EndsLine(last) {
        CompleteLast(init, last);
      }
    } else {
      EmptyFlatten();
    }
  }

  method EditValueSourceEndpoints(body: string, url: Option<string>) returns (edited: string)
    ensures edited == EditBody(body, url)
  {
    hide Chunks, Flatten, SetService, RemoveService, TrimBreaks, EndedLine;
    var lines := Chunks(body);
    CompletedLines(body);
    if lines != [] && !EndsLine(lines[|lines| - 1]) {
      lines := lines[|lines| - 1 := lines[|lines| - 1] + "\n"];
    }
    ghost var start := lines;
    var s := 0;
    while s < 3
      invariant s <= 3
      invariant lines == EditedFor(start, s, url)
    {
      match url {
        case Some(u) => lines := SetServiceEndpoint(lines, VALUE_SOURCE_SERVICES[s], u);
        case None => lines := RemoveServiceEndpoint(lines, VALUE_SOURCE_SERVICES[s]);
      }
      s := s + 1;
    }
    AllServices(start, url);
    edited := Flatten(lines);
    if TrimBreaks(edited) == TrimBreaks(body) {
      edited := body;
    }
  }

  lemma {:induction false} AllServices(lines: seq<string>, url: Option<string>)
    ensures EditedFor(lines, 3, url) == EditLines(lines, url)
  {
    hide EditService;
    assert EditedFor(lines, 1, url) == EditService(EditedFor(lines, 0, url), VALUE_SOURCE_SERVICES[0], url);
    assert EditedFor(lines, 2, url) == EditService(EditedFor(lines, 1, url), VALUE_SOURCE_SERVICES[1], url);
  }

  method BodyHasProperties(body: string) returns (found: bool)
    ensures found == HasProperties(body)
  {
    hide LineKeyValue;
    var lines := Lines(body);
    var i := 0;
    while i < |lines|
      invariant i <= |lines|
      invariant forall k | 0 <= k < i :: LineKeyValue(Lines(body)[k]).None?
    {
      if LineKeyValue(lines[i]).Some? {
        return true;
      }
      i := i + 1;
    }
    return false;
  }

  // ---------------------------------------------------------------------
  // Sections in the text
  // ---------------------------------------------------------------------

  method AppendNewSection(contents: string, header: string, body: string) returns (result: string)
    ensures result == AppendSection(contents, header, body)
  {
    hide TrimBreaks;
    result := contents;
    if result != "" {
      if result[|result| - 1] != '\n' {
        result := result + "\n";
      }
      result := result + "\n";
    }
    result := result + header;
    result := result + "\n";
    result := result + TrimBreaks(body);
    result := result + "\n";
  }

  method ReplaceBody(contents: string, header: string, raw: string, body: string) returns (result: string)
    requires SectionRaw(contents, header) == Some(raw)
    ensures result == ReplaceSectionBody(contents, header, raw, body)
  {
    hide Chunks, HeaderIndex, BodyLength, Flatten, Lower, SectionOf, EndedLine, FirstLength;
    LowerIdempotent(header);
    HeaderIndexLower(Chunks(contents), header);
    var start := FindSectionStart(contents, Lower(header));
    SectionAtIndex(Chunks(contents), header);
    OffsetsCutSection(contents, header, start, raw);
    var end := start + |raw|;
    var headerLine := EndedLine(raw[..FirstLength(raw)]);
    result := contents[..start] + headerLine;
    result := result + body;
    ConcatAssoc(contents[..start], headerLine, body);
    result := result + contents[end..];
  }

  method RemoveWholeSection(contents: string, header: string) returns (result: string)
    ensures result == RemoveSection(contents, header)
  {
    hide Chunks, HeaderIndex, BodyLength, Flatten, Lower, SectionOf, TrimBreaks;
    LowerIdempotent(header);
    HeaderIndexLower(Chunks(contents), header);
    SectionAtIndex(Chunks(contents), header);
    var raw := SectionRawBytes(contents, header);
    if raw.None? {
      return contents;
    }
    var start := FindSectionStart(contents, Lower(header));
    OffsetsCutSection(contents, header, start, raw.value);
    var end := start + |raw.value|;
    result := contents[..start];
    if end < |contents| {
      result := result + contents[end..];
    } else {
      result := TrimBreaks(result);
      if result != "" {
        result := result + "\n";
      }
    }
  }

  // ---------------------------------------------------------------------
  // The editor
  // ---------------------------------------------------------------------

  method NameIsTaken(contents: string, profiles: seq<ProfileInfo>, candidate: string) returns (taken: bool)
    ensures taken == IsTaken(contents, profiles, candidate)
  {
    hide SectionRaw, Lower;
    var raw := SectionRawBytes(contents, ServicesHeader(candidate));
    if raw.Some? {
      return true;
    }
    var i := 0;
    while i < |profiles|
      invariant i <= |profiles|
      invariant forall k | 0 <= k < i :: !RefersTo(profiles[k], candidate)
    {
      if RefersTo(profiles[i], candidate) {
        assert profiles[i] in profiles;
        return true;
      }
      i := i + 1;
    }
    forall p | p in profiles ensures !RefersTo(p, candidate) {
      var k :| 0 <= k < |profiles| && profiles[k] == p;
    }
    return false;
  }

  /** The search loop. It ends because every taken candidate uses up one of the
      finitely many taken headers. */
  method FindFreshName(contents: string, profiles: seq<ProfileInfo>, profileName: string) returns (name: string)
    ensures name == FreshName(contents, profiles, profileName)
    ensures !IsTaken(contents, profiles, name)
  {
    hide IsTaken, TakenHeaders, Lower, ServicesHeader, Remaining;
    var base := "dbflux-" + profileName;
    ghost var all := TakenHeaders(contents, profiles);
    name := base;
    ghost var k := 1;
    var suffix := 2;
    var taken := NameIsTaken(contents, profiles, name);
    while taken
      invariant k >= 1 && suffix == k + 1 && name == Candidate(base, k)
      invariant taken == IsTaken(contents, profiles, name)
      invariant FreshFrom(all, base, 1) == FreshFrom(all, base, k)
      decreases Remaining(all, base, k)
    {
      TakenIsMember(contents, profiles, name);
      SearchProgress(all, base, k);
      name := base + "-" + Decimal.Print(suffix);
      suffix, k := suffix + 1, k + 1;
      taken := NameIsTaken(contents, profiles, name);
    }
    TakenIsMember(contents, profiles, name);
  }

  method LinkNewServicesSection(contents: string, profiles: seq<ProfileInfo>, profileName: string, body: string)
    returns (result: string)
    ensures result == LinkNewSection(contents, profiles, profileName, body)
  {
    hide FreshName, AppendSection, WithProfileBlock;
    var name := FindFreshName(contents, profiles, profileName);
    var linked := ReplaceOrAppendProfileBlock(contents, profileName, [("services", name)], []);
    result := AppendNewSection(linked, ServicesHeader(name), body);
  }

  /** `apply_value_source_endpoint`. */
  method ApplyValueSourceEndpoint(contents: string, profileName: string, url: Option<string>) returns (result: string)
    ensures result == Apply(contents, profileName, url)
  {
    hide Parse, SectionRaw, EditBody, LinkNewSection, WithProfileBlock, RemoveSection, ReplaceSectionBody,
         AppendSection, HasProperties, BodyText, TargetIndex, IsShared, IsTarget;
    var profiles := ParseAwsConfig(contents);
    var t := FindTarget(profiles, profileName);
    if t == |profiles| {
      return contents;
    }
    if profiles[t].services.None? {
      if url.None? {
        return contents;
      }
      var body := EditValueSourceEndpoints("", url);
      result := LinkNewServicesSection(contents, profiles, profileName, body);
      return;
    }
    var section := profiles[t].services.value;
    var header := ServicesHeader(section);
    var existing := SectionRawBytes(contents, header);
    var body := if existing.Some? then BodyText(existing.value) else "";
    var edited := EditValueSourceEndpoints(body, url);
    if edited == body {
      return contents;
    }
    var shared := SectionIsShared(profiles, profileName, section);
    var kept := BodyHasProperties(edited);
    if !shared && !kept {
      var without := RemoveWholeSection(contents, header);
      result := ReplaceOrAppendProfileBlock(without, profileName, [], ["services"]);
    } else if shared && !kept {
      result := ReplaceOrAppendProfileBlock(contents, profileName, [], ["services"]);
    } else if !shared {
      if existing.Some? {
        result := ReplaceBody(contents, header, existing.value, edited);
      } else {
        result := AppendNewSection(contents, header, edited);
      }
    } else {
      result := LinkNewServicesSection(contents, profiles, profileName, edited);
    }
  }

  method FindTarget(profiles: seq<ProfileInfo>, profileName: string) returns (t: nat)
    ensures t == TargetIndex(profiles, profileName)
  {
    hide IsTarget;
    t := 0;
    while t < |profiles| && !IsTarget(profiles[t], profileName)
      invariant t <= |profiles|
      invariant TargetIndex(profiles, profileName) == t + TargetIndex(profiles[t..], profileName)
    {
      assert profiles[t..][1..] == profiles[t + 1..];
      t := t + 1;
    }
  }

  method SectionIsShared(profiles: seq<ProfileInfo>, profileName: string, section: string) returns (shared: bool)
    ensures shared == IsShared(profiles, profileName, section)
  {
    hide Lower;
    var i := 0;
    while i < |profiles|
      invariant i <= |profiles|
      invariant forall k | 0 <= k < i ::
          profiles[k].isSsoSession || EqIgnoreCase(profiles[k].name, profileName) || !RefersTo(profiles[k], section)
    {
      var other := profiles[i];
      if !other.isSsoSession && !EqIgnoreCase(other.name, profileName) && RefersTo(other, section) {
        return true;
      }
      i := i + 1;
    }
    return false;
  }
}

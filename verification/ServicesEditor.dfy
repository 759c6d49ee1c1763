/** Editing the endpoints of a `[services]` section body, line by line. */
module ServicesEditor {
  import opened Text
  import opened Sections
  import opened AwsParser
  import MergeWriter
  import DocEdits

  // ---------------------------------------------------------------------
  // The edit, on lines
  // ---------------------------------------------------------------------

  /** `line_key_value`: the key and value of a line that is no comment. */
  function LineKeyValue(line: string): Option<(string, string)> {
    var t := Trim(line);
    if t != "" && (t[0] == '#' || t[0] == ';') then None else KeyValue(t)
  }

  /** A `service =` line. */
  predicate Opens(line: string, service: string) {
    !IsIndented(line) && LineKeyValue(line) == Some((service, ""))
  }

  predicate IsEndpointLine(line: string) {
    match LineKeyValue(line) case None => false case Some((k, _)) => k == "endpoint_url"
  }

  /** A line that belongs to the sub-section above it. */
  predicate InRun(line: string) {
    IsIndented(line) && Trim(line) != ""
  }

  function OpenerIndex(lines: seq<string>, service: string): (i: nat)
    ensures i <= |lines|
  {
    if lines == [] || Opens(lines[0], service) then 0 else 1 + OpenerIndex(lines[1..], service)
  }

  function RunLength(lines: seq<string>): (n: nat)
    ensures n <= |lines|
  {
    if lines == [] || !InRun(lines[0]) then 0 else 1 + RunLength(lines[1..])
  }

  function EndpointText(url: string): string {
    "endpoint_url = " + url
  }

  function NewEndpointLine(url: string): string {
    "  " + EndpointText(url) + "\n"
  }

  /** An endpoint line with its value exchanged: indentation and terminator stay. */
  function RewriteLine(line: string, url: string): string {
    var indent := line[..|line| - |TrimStart(line)|];
    indent + EndpointText(url) + if |line| >= 2 && line[|line| - 2..] == "\r\n" then "\r\n" else "\n"
  }

  /** The lines of a sub-section with its endpoint set: the first endpoint line
      rewritten, or a new one added at the end. */
  function SetRun(run: seq<string>, url: string): seq<string> {
    if run == [] then [NewEndpointLine(url)]
    else if IsEndpointLine(run[0]) then [RewriteLine(run[0], url)] + run[1..]
    else [run[0]] + SetRun(run[1..], url)
  }

  /** Length of `lines` without the blank lines that end it. */
  function ContentLength(lines: seq<string>): (n: nat)
    ensures n <= |lines|
  {
    if lines == [] || Trim(lines[|lines| - 1]) != "" then |lines| else ContentLength(lines[..|lines| - 1])
  }

  function NewService(service: string, url: string): seq<string> {
    [service + " =\n", NewEndpointLine(url)]
  }

  /** `set_service_endpoint`. */
  function SetService(lines: seq<string>, service: string, url: string): seq<string> {
    var i := OpenerIndex(lines, service);
    if i == |lines| then
      var n := ContentLength(lines);
      lines[..n] + NewService(service, url) + lines[n..]
    else
      var j := i + 1 + RunLength(lines[i + 1..]);
      lines[..i + 1] + SetRun(lines[i + 1..j], url) + lines[j..]
  }

  function NonEndpoints(run: seq<string>): seq<string> {
    if run == [] then [] else (if IsEndpointLine(run[0]) then [] else [run[0]]) + NonEndpoints(run[1..])
  }

  /** `remove_service_endpoint`. */
  function RemoveService(lines: seq<string>, service: string): seq<string> {
    var i := OpenerIndex(lines, service);
    if i == |lines| then lines else
      var j := i + 1 + RunLength(lines[i + 1..]);
      var kept := NonEndpoints(lines[i + 1..j]);
      lines[..i] + (if kept == [] then [] else [lines[i]] + kept) + lines[j..]
  }

  function EditService(lines: seq<string>, service: string, url: Option<string>): seq<string> {
    match url case Some(u) => SetService(lines, service, u) case None => RemoveService(lines, service)
  }

  const VALUE_SOURCE_SERVICES: seq<string> := ["secrets_manager", "secrets-manager", "ssm"]

  function EditLines(lines: seq<string>, url: Option<string>): seq<string> {
    EditService(EditService(EditService(lines, "secrets_manager", url), "secrets-manager", url), "ssm", url)
  }

  /** `edit_value_source_endpoints`. */
  function EditBody(body: string, url: Option<string>): string {
    var edited := Flatten(EditLines(Chunks(EndedLine(body)), url));
    if TrimBreaks(edited) == TrimBreaks(body) then body else edited
  }

  // ---------------------------------------------------------------------
  // What the parser reads from the lines of a sub-section
  // ---------------------------------------------------------------------

  /** A service name as `VALUE_SOURCE_SERVICES` holds them. */
  predicate ServiceName(service: string) {
    service != "" && Trimmed(service) && Lower(service) == service && '=' !in service && '\n' !in service
    && service[0] != '#' && service[0] != ';' && service[0] != '['
  }

  function Of(es: seq<Endpoint>, service: string): seq<string> {
    if es == [] then [] else (if es[0].service == service then [es[0].url] else []) + Of(es[1..], service)
  }

  lemma {:induction false} OfConcat(a: seq<Endpoint>, b: seq<Endpoint>, service: string)
    ensures Of(a + b, service) == Of(a, service) + Of(b, service)
  {
    if a == [] {
      assert a + b == b;
    } else {
      assert (a + b)[1..] == a[1..] + b;
      OfConcat(a[1..], b, service);
      ConcatAssoc(if a[0].service == service then [a[0].url] else [], Of(a[1..], service), Of(b, service));
    }
  }

  /** The key of a line starts with the first character of the line. */
  lemma {:induction false} KeyStart(t: string)
    requires Trimmed(t) && KeyValue(t).Some?
    ensures t != "" && KeyValue(t).value.0 != "" && KeyValue(t).value.0[0] == LowerChar(t[0])
  {
    hide IndexOf, IsWhitespace;
    var n := IndexOf(t, '=');
    var left := t[..n];
    assert Trim("") == "" && t[..0] == "";
    MergeWriter.TrimFirst("", left);
    assert "" + left == left;
  }

  /** Comments with `;` are no services and no endpoints to the parser either. */
  lemma {:induction false} LineKeyValueReads(line: string, key: string)
    requires key != "" && key[0] != '#' && key[0] != ';'
    ensures (LineKeyValue(line).Some? && LineKeyValue(line).value.0 == key)
        <==> (!IsSkipped(line) && KeyValue(Trim(line)).Some? && KeyValue(Trim(line)).value.0 == key)
    ensures !IsSkipped(line) && KeyValue(Trim(line)).Some? && KeyValue(Trim(line)).value.0 == key ==>
              LineKeyValue(line) == KeyValue(Trim(line))
  {
    hide Trim, KeyValue;
    TrimTrimmed(line);
    if KeyValue(Trim(line)).Some? {
      KeyStart(Trim(line));
    }
    if Trim(line) == "" { EmptyKey(); }
  }

  lemma {:induction false} EmptyKey()
    ensures KeyValue("") == None
  {
  }

  /** The opener of a service opens it for the parser, and only it does. */
  lemma {:induction false} OpenerReads(line: string, service: string, open: Option<string>)
    requires ServiceName(service)
    ensures Opens(line, service) ==> NextService(line, open) == Some(service)
    ensures !Opens(line, service) && open != Some(service) ==> NextService(line, open) != Some(service)
    ensures !IsIndented(line) ==> LineEndpoints(line, open) == []
  {
    hide Trim, KeyValue, IsIndented, LineKeyValue, Lower;
    LineKeyValueReads(line, service);
  }

  lemma {:induction false} IndentedReads(line: string, open: Option<string>)
    requires IsIndented(line)
    ensures NextService(line, open) == open
    ensures open.None? || !IsEndpointLine(line) ==> LineEndpoints(line, open) == []
    ensures open.Some? && IsEndpointLine(line) ==>
              LineEndpoints(line, open) == [Endpoint(open.value, LineKeyValue(line).value.1)]
  {
    hide Trim, KeyValue, IsIndented, LineKeyValue;
    LineKeyValueReads(line, "endpoint_url");
  }

  // ---------------------------------------------------------------------
  // Setting an endpoint
  // ---------------------------------------------------------------------

  lemma {:induction false} EndpointKey()
    ensures Lower("endpoint_url") == "endpoint_url" && Trimmed("endpoint_url") && '=' !in "endpoint_url"
  {
  }

  lemma {:induction false} EndpointParts(indent: string, url: string, end: string, a: string, t: string, b: string)
    requires url == a + t + b
    ensures indent + EndpointText(url) + end == indent + "endpoint_url" + " " + "=" + (" " + a + t + (b + end))
  {
    assert EndpointText(url) == "endpoint_url" + " " + "=" + (" " + url);
    assert " " + url == " " + a + t + b;
  }

  lemma {:induction false} EndpointLineReads(indent: string, url: string, end: string)
    requires AllWhitespace(indent) && AllWhitespace(end)
    ensures var line := indent + EndpointText(url) + end;
            && IsEndpointLine(line) && LineKeyValue(line) == Some(("endpoint_url", Trim(url)))
            && Trim(line) != "" && !IsBracket(line)
  {
    hide Trim, KeyValue, Lower;
    var key := "endpoint_url";
    var a, b := TrimSplit(url);
    var m := EndpointText(url) + end;
    var line := indent + EndpointText(url) + end;
    ConcatAssoc(indent, EndpointText(url), end);
    EndpointKey();
    MergeWriter.KeyValueOf(indent, key, " ", " " + a, Trim(url), b + end);
    EndpointParts(indent, url, end, a, Trim(url), b);
    assert m[0] == 'e';
    MergeWriter.TrimFirst(indent, m);
    MergeWriter.KeyValueTrim(line);
  }

  lemma {:induction false} RewriteReads(line: string, url: string)
    requires IsIndented(line) && Trim(line) != ""
    ensures var r := RewriteLine(line, url);
            && IsEndpointLine(r) && LineKeyValue(r) == Some(("endpoint_url", Trim(url))) && InRun(r) && !IsBracket(r)
  {
    hide Trim, LineKeyValue;
    var a := TrimStartSplit(line);
    var n := |line| - |TrimStart(line)|;
    assert line[..n] == a;
    var end := if |line| >= 2 && line[|line| - 2..] == "\r\n" then "\r\n" else "\n";
    EndpointLineReads(a, url, end);
    assert IsWhitespace(line[0]);
  }

  lemma {:induction false} NewLineReads(url: string)
    ensures var r := NewEndpointLine(url);
            && IsEndpointLine(r) && LineKeyValue(r) == Some(("endpoint_url", Trim(url))) && InRun(r) && !IsBracket(r)
  {
    hide Trim, LineKeyValue;
    EndpointLineReads("  ", url, "\n");
  }

  predicate AllInRun(run: seq<string>) {
    forall k | 0 <= k < |run| :: InRun(run[k])
  }

  /** A sub-section gives endpoints to its own service only, and leaves it open. */
  lemma {:induction false} RunReads(run: seq<string>, service: string)
    requires AllInRun(run)
    ensures ServiceAfter(run, Some(service)) == Some(service)
    ensures forall other | other != service :: Of(Endpoints(run, Some(service)), other) == []
  {
    hide Trim, KeyValue, NextService, LineEndpoints, IsEndpointLine, IsIndented, LineKeyValue;
    if run != [] {
      assert InRun(run[0]);
      IndentedReads(run[0], Some(service));
      RunReads(run[1..], service);
      forall other | other != service ensures Of(Endpoints(run, Some(service)), other) == [] {
        OfConcat(LineEndpoints(run[0], Some(service)), Endpoints(run[1..], Some(service)), other);
        OfOne(LineEndpoints(run[0], Some(service)), other);
      }
    }
  }

  lemma {:induction false} OfOne(es: seq<Endpoint>, other: string)
    requires |es| <= 1 && (es != [] ==> es[0].service != other)
    ensures Of(es, other) == []
  {
    if es != [] { assert es[1..] == []; }
  }

  /** After the edit the first endpoint of the sub-section is the new one. */
  lemma {:induction false} SetRunReads(run: seq<string>, service: string, url: string)
    requires AllInRun(run)
    ensures AllInRun(SetRun(run, url))
    ensures var es := Endpoints(SetRun(run, url), Some(service));
            es != [] && es[0] == Endpoint(service, Trim(url))
  {
    hide Trim, KeyValue, NextService, LineEndpoints, LineKeyValue, IsEndpointLine, IsIndented, RewriteLine,
         NewEndpointLine;
    if run == [] {
      NewLineReads(url);
      IndentedReads(NewEndpointLine(url), Some(service));
    } else {
      assert InRun(run[0]);
      if IsEndpointLine(run[0]) {
        RewriteReads(run[0], url);
        IndentedReads(RewriteLine(run[0], url), Some(service));
      } else {
        IndentedReads(run[0], Some(service));
        SetRunReads(run[1..], service, url);
        assert ([run[0]] + SetRun(run[1..], url))[1..] == SetRun(run[1..], url);
      }
    }
  }

  predicate NoOpener(lines: seq<string>, service: string) {
    forall k | 0 <= k < |lines| :: !Opens(lines[k], service)
  }

  /** Without its opener a service gets no endpoint. */
  lemma {:induction false} NoOpenerReads(lines: seq<string>, service: string, open: Option<string>)
    requires ServiceName(service) && NoOpener(lines, service) && open != Some(service)
    ensures ServiceAfter(lines, open) != Some(service)
    ensures Of(Endpoints(lines, open), service) == []
    decreases |lines|
  {
    hide Trim, KeyValue, NextService, LineKeyValue, IsIndented, Opens, ServiceName;
    if lines != [] {
      OpenerReads(lines[0], service, open);
      NoOpenerReads(lines[1..], service, NextService(lines[0], open));
      OfConcat(LineEndpoints(lines[0], open), Endpoints(lines[1..], NextService(lines[0], open)), service);
      OfOne(LineEndpoints(lines[0], open), service);
    }
  }

  lemma {:induction false} OpenerAt(lines: seq<string>, service: string)
    ensures var i := OpenerIndex(lines, service);
            && NoOpener(lines[..i], service)
            && (i < |lines| ==> Opens(lines[i], service))
  {
    hide Opens;
    if lines != [] && !Opens(lines[0], service) {
      OpenerAt(lines[1..], service);
      var i := OpenerIndex(lines, service);
      assert lines[..i] == [lines[0]] + lines[1..][..i - 1];
    }
  }

  lemma {:induction false} RunAt(lines: seq<string>)
    ensures var n := RunLength(lines);
            && AllInRun(lines[..n])
            && (n < |lines| ==> !InRun(lines[n]))
  {
    hide InRun;
    if lines != [] && InRun(lines[0]) {
      RunAt(lines[1..]);
      var n := RunLength(lines);
      assert lines[..n] == [lines[0]] + lines[1..][..n - 1];
    }
  }

  /** What a text around one sub-section means. */
  lemma {:induction false} AroundRun(pre: seq<string>, hd: string, run: seq<string>, post: seq<string>,
                                     service: string, open: Option<string>)
    requires ServiceName(service) && Opens(hd, service) && AllInRun(run)
    ensures Endpoints(pre + [hd] + run + post, open)
         == Endpoints(pre, open) + Endpoints(run, Some(service)) + Endpoints(post, Some(service))
    ensures ServiceAfter(pre + [hd] + run + post, open) == ServiceAfter(post, Some(service))
  {
    hide Trim, KeyValue, NextService, LineEndpoints, IsEndpointLine, IsIndented, LineKeyValue, InRun, ServiceName;
    RunReads(run, service);
    var o := ServiceAfter(pre, open);
    OpenerReads(hd, service, o);
    assert [hd][1..] == [];
    assert Endpoints([hd], o) == LineEndpoints(hd, o) + Endpoints([], Some(service)) == [];
    assert ServiceAfter([hd], o) == ServiceAfter([], Some(service)) == Some(service);
    EndpointsConcat(pre, [hd], open);
    EndpointsConcat(pre + [hd], run, open);
    EndpointsConcat(pre + [hd] + run, post, open);
    assert Endpoints(pre, open) + [] == Endpoints(pre, open);
  }

  lemma {:induction false} BlankReadsAll(lines: seq<string>, open: Option<string>)
    requires forall k | 0 <= k < |lines| :: Trim(lines[k]) == ""
    ensures Endpoints(lines, open) == [] && ServiceAfter(lines, open) == open
  {
    hide Trim;
    if lines != [] {
      DocEdits.BlankReads(lines[0], open);
      BlankReadsAll(lines[1..], open);
    }
  }

  lemma {:induction false} ContentAt(lines: seq<string>)
    ensures forall k | ContentLength(lines) <= k < |lines| :: Trim(lines[k]) == ""
    ensures var n := ContentLength(lines); n > 0 ==> Trim(lines[n - 1]) != ""
  {
    hide Trim;
    if lines != [] && Trim(lines[|lines| - 1]) == "" {
      ContentAt(lines[..|lines| - 1]);
    }
  }

  lemma {:induction false} NewOpenerReads(service: string)
    requires ServiceName(service)
    ensures var l := service + " =\n";
            Opens(l, service) && !IsBracket(l) && Trim(l) != ""
  {
    hide Trim, KeyValue, Lower;
    var l := service + " =\n";
    MergeWriter.KeyValueOf("", service, " ", "", "", "\n");
    assert l == "" + service + " " + "=" + ("" + "" + "\n");
    MergeWriter.KeyValueTrim(l);
    MergeWriter.TrimFirst("", l);
    assert "" + l == l;
  }

  /** Setting the endpoint of a service: it becomes the first endpoint of that
      service, and no other service's endpoints change. */
  lemma {:induction false} SetFound(lines: seq<string>, service: string, url: string, open: Option<string>,
          other: string)
    requires ServiceName(service) && open != Some(service) && OpenerIndex(lines, service) < |lines|
    ensures var before, after := Endpoints(lines, open), Endpoints(SetService(lines, service, url), open);
            && (other != service ==> Of(after, other) == Of(before, other))
            && Of(after, service) != [] && Of(after, service)[0] == Trim(url)
  {
    hide Trim, KeyValue, Endpoints, ServiceAfter, Opens, InRun, ServiceName, SetRun, OpenerIndex, RunLength, Of;
    var i := OpenerIndex(lines, service);
    OpenerAt(lines, service);
    RunAt(lines[i + 1..]);
    var j := i + 1 + RunLength(lines[i + 1..]);
    var pre, hd, run, post := lines[..i], lines[i], lines[i + 1..j], lines[j..];
    assert run == lines[i + 1..][..j - i - 1];
    var run' := SetRun(run, url);
    SetRunReads(run, service, url);
    AroundRun(pre, hd, run, post, service, open);
    AroundRun(pre, hd, run', post, service, open);
    assert lines == pre + [hd] + run + post;
    assert lines[..i + 1] == pre + [hd];
    NoOpenerReads(pre, service, open);
    OfThree(Endpoints(pre, open), Endpoints(run, Some(service)), Endpoints(post, Some(service)), other);
    OfThree(Endpoints(pre, open), Endpoints(run', Some(service)), Endpoints(post, Some(service)), other);
    OfThree(Endpoints(pre, open), Endpoints(run', Some(service)), Endpoints(post, Some(service)), service);
    RunReads(run, service);
    RunReads(run', service);
    OfHead(Endpoints(run', Some(service)), service);
  }

  lemma {:induction false} OfThree(a: seq<Endpoint>, b: seq<Endpoint>, c: seq<Endpoint>, service: string)
    ensures Of(a + b + c, service) == Of(a, service) + Of(b, service) + Of(c, service)
  {
    hide Of;
    OfConcat(a + b, c, service);
    OfConcat(a, b, service);
  }

  lemma {:induction false} OfHead(es: seq<Endpoint>, service: string)
    requires es != [] && es[0].service == service
    ensures Of(es, service) != [] && Of(es, service)[0] == es[0].url
  {
  }

  lemma {:induction false} SetAbsent(lines: seq<string>, service: string, url: string, open: Option<string>,
          other: string)
    requires ServiceName(service) && open != Some(service) && OpenerIndex(lines, service) == |lines|
    ensures var before, after := Endpoints(lines, open), Endpoints(SetService(lines, service, url), open);
            && (other != service ==> Of(after, other) == Of(before, other))
            && Of(after, service) != [] && Of(after, service)[0] == Trim(url)
  {
    hide Trim, KeyValue, Endpoints, ServiceAfter, Opens, InRun, ServiceName, OpenerIndex, Of, NewEndpointLine,
         ContentLength;
    OpenerAt(lines, service);
    assert lines[..|lines|] == lines;
    var n := ContentLength(lines);
    ContentAt(lines);
    var pre, blanks, hd, run := lines[..n], lines[n..], service + " =\n", [NewEndpointLine(url)];
    NewOpenerReads(service);
    NewLineReads(url);
    AroundRun(pre, hd, run, blanks, service, open);
    assert NewService(service, url) == [hd] + run;
    assert pre + ([hd] + run) + blanks == pre + [hd] + run + blanks;
    BlankReadsAll(blanks, Some(service));
    BlankReadsAll(blanks, ServiceAfter(pre, open));
    EndpointsConcat(pre, blanks, open);
    assert lines == pre + blanks;
    NoOpenerReads(pre, service, open);
    OneEndpoint(url, service);
    OfThree(Endpoints(pre, open), Endpoints(run, Some(service)), [], other);
    OfThree(Endpoints(pre, open), Endpoints(run, Some(service)), [], service);
    OfConcat(Endpoints(pre, open), [], other);
    RunReads(run, service);
    OfHead(Endpoints(run, Some(service)), service);
  }

  lemma {:induction false} OneEndpoint(url: string, service: string)
    ensures Endpoints([NewEndpointLine(url)], Some(service)) == [Endpoint(service, Trim(url))]
  {
    hide Trim, NewEndpointLine, NextService, LineEndpoints, LineKeyValue;
    NewLineReads(url);
    IndentedReads(NewEndpointLine(url), Some(service));
    assert [NewEndpointLine(url)][1..] == [];
  }

  lemma {:induction false} SetServiceReads(lines: seq<string>, service: string, url: string, open: Option<string>,
          other: string)
    requires ServiceName(service) && open != Some(service)
    ensures var before, after := Endpoints(lines, open), Endpoints(SetService(lines, service, url), open);
            && (other != service ==> Of(after, other) == Of(before, other))
            && Of(after, service) != [] && Of(after, service)[0] == Trim(url)
  {
    hide Endpoints, SetService, Of, Trim, ServiceName;
    if OpenerIndex(lines, service) < |lines| {
      SetFound(lines, service, url, open, other);
    } else {
      SetAbsent(lines, service, url, open, other);
    }
  }

  lemma {:induction false} NamesAreServices()
    ensures ServiceName("secrets_manager") && ServiceName("secrets-manager") && ServiceName("ssm")
  {
    LowerName("secrets_manager");
    LowerName("secrets-manager");
    LowerName("ssm");
  }

  lemma {:induction false} LowerName(s: string)
    requires forall i | 0 <= i < |s| :: !('A' <= s[i] <= 'Z')
    ensures Lower(s) == s
  {
  }

  lemma {:induction false} ManagerFirst(es: seq<Endpoint>, url: string)
    requires Of(es, "secrets_manager") != [] && Of(es, "secrets_manager")[0] == url
    requires Of(es, "secrets-manager") != [] && Of(es, "secrets-manager")[0] == url
    ensures ManagerUrl(es) == Some(url)
  {
    if !IsManager(es[0].service) { ManagerFirst(es[1..], url); }
  }

  /** The edit of a whole section body: the parser reports the new endpoint, and
      the endpoints of every service it does not manage stay as they were. */
  lemma {:induction false} SetLinesReads(lines: seq<string>, url: string, other: string)
    ensures var before, after := Endpoints(lines, None), Endpoints(EditLines(lines, Some(url)), None);
            && UrlOf(after) == Some(Trim(url))
            && (other !in VALUE_SOURCE_SERVICES ==> Of(after, other) == Of(before, other))
  {
    hide Trim, Endpoints, SetService, Of, ServiceName, SsmUrl, ManagerUrl;
    NamesAreServices();
    var a, b, c := "secrets_manager", "secrets-manager", "ssm";
    assert a != b && a != c && b != c by { assert a[7] != b[7] && |a| != |c|; }
    var l1 := SetService(lines, a, url);
    var l2 := SetService(l1, b, url);
    var l3 := SetService(l2, c, url);
    assert EditLines(lines, Some(url)) == l3;
    SetServiceReads(lines, a, url, None, other);
    SetServiceReads(l1, b, url, None, a);
    SetServiceReads(l1, b, url, None, other);
    SetServiceReads(l2, c, url, None, a);
    SetServiceReads(l2, c, url, None, b);
    SetServiceReads(l2, c, url, None, other);
    ManagerFirst(Endpoints(l3, None), Trim(url));
    assert a in VALUE_SOURCE_SERVICES && b in VALUE_SOURCE_SERVICES && c in VALUE_SOURCE_SERVICES by {
      assert VALUE_SOURCE_SERVICES[0] == a && VALUE_SOURCE_SERVICES[1] == b && VALUE_SOURCE_SERVICES[2] == c;
    }
  }

  // ---------------------------------------------------------------------
  // Removing an endpoint
  // ---------------------------------------------------------------------

  /** Where the sub-section of a service ends, for the editor. */
  function RunEnd(lines: seq<string>, i: nat): (j: nat)
    requires i < |lines|
    ensures i < j <= |lines|
  {
    i + 1 + RunLength(lines[i + 1..])
  }

  /** Every endpoint the parser gives to the service lies in the sub-section the
      editor finds: none follows it after a blank line, a comment or a second
      opener. */
  predicate Contiguous(lines: seq<string>, service: string) {
    var i := OpenerIndex(lines, service);
    i < |lines| ==> Of(Endpoints(lines[RunEnd(lines, i)..], Some(service)), service) == []
  }

  /** When the open service gets no endpoint it does not matter which is open. */
  lemma {:induction false} OpenIrrelevant(lines: seq<string>, service: string, open: Option<string>)
    requires Of(Endpoints(lines, Some(service)), service) == []
    ensures Endpoints(lines, open) == Endpoints(lines, Some(service))
  {
    hide Trim, KeyValue, IsIndented;
    if lines != [] {
      var l, t := lines[0], lines[1..];
      var n := NextService(l, Some(service));
      OfConcat(LineEndpoints(l, Some(service)), Endpoints(t, n), service);
      assert LineEndpoints(l, Some(service)) == [];
      if NextService(l, open) == open && n == Some(service) {
        OpenIrrelevant(t, service, open);
      } else {
        assert NextService(l, open) == n;
      }
    }
  }

  lemma {:induction false} NonEndpointsReads(run: seq<string>, open: Option<string>)
    requires AllInRun(run)
    ensures AllInRun(NonEndpoints(run))
    ensures Endpoints(NonEndpoints(run), open) == []
  {
    hide Trim, KeyValue, NextService, LineEndpoints, LineKeyValue, IsEndpointLine, IsIndented;
    if run != [] {
      assert InRun(run[0]);
      NonEndpointsReads(run[1..], open);
      IndentedReads(run[0], open);
      if !IsEndpointLine(run[0]) {
        assert ([run[0]] + NonEndpoints(run[1..]))[1..] == NonEndpoints(run[1..]);
      } else {
        assert [] + NonEndpoints(run[1..]) == NonEndpoints(run[1..]);
      }
    }
  }

  /** Removing the endpoint of a service leaves it none, and changes no other
      service's endpoints. */
  lemma {:induction false} RemoveServiceReads(lines: seq<string>, service: string, open: Option<string>,
          other: string)
    requires ServiceName(service) && open != Some(service) && Contiguous(lines, service)
    ensures var before, after := Endpoints(lines, open), Endpoints(RemoveService(lines, service), open);
            && (other != service ==> Of(after, other) == Of(before, other))
            && Of(after, service) == []
  {
    hide Trim, KeyValue, Endpoints, ServiceAfter, Opens, InRun, ServiceName, OpenerIndex, RunLength, Of, NonEndpoints;
    var i := OpenerIndex(lines, service);
    OpenerAt(lines, service);
    if i == |lines| {
      assert lines[..i] == lines;
      NoOpenerReads(lines, service, open);
    } else {
      RunAt(lines[i + 1..]);
      var j := RunEnd(lines, i);
      var pre, hd, run, post := lines[..i], lines[i], lines[i + 1..j], lines[j..];
      assert run == lines[i + 1..][..j - i - 1];
      assert lines == pre + [hd] + run + post;
      var kept := NonEndpoints(run);
      RemovedReads(pre, hd, run, post, service, open);
      AroundRun(pre, hd, run, post, service, open);
      NoOpenerReads(pre, service, open);
      RunReads(run, service);
      OfThree(Endpoints(pre, open), Endpoints(run, Some(service)), Endpoints(post, Some(service)), other);
      OfConcat(Endpoints(pre, open), Endpoints(post, Some(service)), other);
      OfConcat(Endpoints(pre, open), Endpoints(post, Some(service)), service);
    }
  }

  function Removed(pre: seq<string>, hd: string, run: seq<string>, post: seq<string>): seq<string> {
    pre + (if NonEndpoints(run) == [] then [] else [hd] + NonEndpoints(run)) + post
  }

  lemma {:induction false} RemovedReads(pre: seq<string>, hd: string, run: seq<string>, post: seq<string>,
                                        service: string, open: Option<string>)
    requires ServiceName(service) && Opens(hd, service) && AllInRun(run)
    requires Of(Endpoints(post, Some(service)), service) == []
    ensures Endpoints(Removed(pre, hd, run, post), open) == Endpoints(pre, open) + Endpoints(post, Some(service))
  {
    hide Trim, KeyValue, Endpoints, ServiceAfter, Opens, InRun, ServiceName, Of, NonEndpoints;
    var kept := NonEndpoints(run);
    NonEndpointsReads(run, Some(service));
    if kept == [] {
      assert pre + [] + post == pre + post;
      EndpointsConcat(pre, post, open);
      OpenIrrelevant(post, service, ServiceAfter(pre, open));
    } else {
      assert pre + ([hd] + kept) + post == pre + [hd] + kept + post;
      AroundRun(pre, hd, kept, post, service, open);
      assert Endpoints(pre, open) + [] == Endpoints(pre, open);
    }
  }

  /** `lines` cut at the sub-section of `service`. */
  predicate SplitAt(lines: seq<string>, service: string, pre: seq<string>, hd: string, run: seq<string>,
          post: seq<string>) {
    && lines == pre + [hd] + run + post
    && NoOpener(pre, service) && Opens(hd, service) && AllInRun(run)
    && (post != [] ==> !InRun(post[0]))
  }

  lemma {:induction false} OpenerUnique(pre: seq<string>, rest: seq<string>, service: string)
    requires NoOpener(pre, service) && rest != [] && Opens(rest[0], service)
    ensures OpenerIndex(pre + rest, service) == |pre|
  {
    hide Opens;
    if pre == [] {
      assert pre + rest == rest;
    } else {
      assert (pre + rest)[1..] == pre[1..] + rest;
      OpenerUnique(pre[1..], rest, service);
    }
  }

  lemma {:induction false} OpenerNone(lines: seq<string>, service: string)
    requires NoOpener(lines, service)
    ensures OpenerIndex(lines, service) == |lines|
  {
    hide Opens;
    if lines != [] { OpenerNone(lines[1..], service); }
  }

  lemma {:induction false} RunUnique(run: seq<string>, post: seq<string>)
    requires AllInRun(run) && (post != [] ==> !InRun(post[0]))
    ensures RunLength(run + post) == |run|
  {
    hide InRun;
    if run == [] {
      assert run + post == post;
    } else {
      assert (run + post)[1..] == run[1..] + post;
      RunUnique(run[1..], post);
    }
  }

  lemma {:induction false} SplitPlace(lines: seq<string>, service: string, pre: seq<string>, hd: string,
          run: seq<string>, post: seq<string>)
    requires SplitAt(lines, service, pre, hd, run, post)
    ensures OpenerIndex(lines, service) == |pre| < |lines|
    ensures RunEnd(lines, |pre|) == |pre| + 1 + |run|
    ensures lines[..|pre|] == pre && lines[|pre|] == hd && lines[|pre| + 1..|pre| + 1 + |run|] == run
    ensures lines[|pre| + 1 + |run|..] == post
  {
    hide Opens, InRun, NoOpener, AllInRun, OpenerIndex, RunLength;
    assert lines == pre + ([hd] + run + post);
    OpenerUnique(pre, [hd] + run + post, service);
    assert lines[|pre| + 1..] == run + post;
    RunUnique(run, post);
  }

  lemma {:induction false} SplitLines(lines: seq<string>, service: string)
    returns (pre: seq<string>, hd: string, run: seq<string>, post: seq<string>)
    requires OpenerIndex(lines, service) < |lines|
    ensures SplitAt(lines, service, pre, hd, run, post)
  {
    hide Opens, InRun, OpenerIndex, RunLength;
    var i := OpenerIndex(lines, service);
    OpenerAt(lines, service);
    var t := lines[i + 1..];
    var n := RunLength(t);
    RunAt(t);
    pre, hd, run, post := lines[..i], lines[i], t[..n], t[n..];
    assert lines == pre + [hd] + t;
    assert t == run + post;
  }

  lemma {:induction false} SplitContiguous(lines: seq<string>, service: string, pre: seq<string>, hd: string,
          run: seq<string>, post: seq<string>)
    requires SplitAt(lines, service, pre, hd, run, post)
    ensures Contiguous(lines, service) <==> Of(Endpoints(post, Some(service)), service) == []
    ensures RemoveService(lines, service) == Removed(pre, hd, run, post)
  {
    hide SplitAt, Opens, InRun, OpenerIndex, RunLength, Of, Endpoints, NonEndpoints;
    SplitPlace(lines, service, pre, hd, run, post);
  }

  lemma {:induction false} OtherOpener(hd: string, service: string, other: string)
    requires Opens(hd, service) && service != other
    ensures !Opens(hd, other) && !InRun(hd)
  {
  }

  lemma {:induction false} RunNoOpener(run: seq<string>, service: string)
    requires AllInRun(run)
    ensures NoOpener(run, service)
  {
  }

  lemma {:induction false} NonEndpointsInRun(run: seq<string>)
    requires AllInRun(run)
    ensures AllInRun(NonEndpoints(run))
  {
    NonEndpointsReads(run, None);
  }

  /** The removal of one service keeps the sub-section of another where it is. */
  lemma {:induction false} RemoveBeside(pre: seq<string>, hd: string, run: seq<string>, post: seq<string>,
                                        service: string, other: string)
    requires ServiceName(service) && ServiceName(other) && service != other
    requires SplitAt(pre + [hd] + run + post, service, pre, hd, run, post)
    requires Of(Endpoints(post, Some(service)), service) == []
    requires Contiguous(pre + [hd] + run + post, other)
    ensures Contiguous(Removed(pre, hd, run, post), other)
  {
    hide Trim, Opens, InRun, OpenerIndex, RunLength, Of, Endpoints, NonEndpoints, ServiceName, Contiguous;
    OtherOpener(hd, service, other);
    NonEndpointsInRun(run);
    RunNoOpener(run, other);
    RunNoOpener(NonEndpoints(run), other);
    if OpenerIndex(pre, other) < |pre| {
      RemoveAfter(pre, hd, run, post, service, other);
    } else if OpenerIndex(post, other) < |post| {
      RemoveBefore(pre, hd, run, post, service, other);
    } else {
      OpenerAt(pre, other);
      OpenerAt(post, other);
      assert pre[..|pre|] == pre && post[..|post|] == post;
      var l := Removed(pre, hd, run, post);
      assert NoOpener(l, other);
      OpenerNone(l, other);
      NoOpenerContiguous(l, other);
    }
  }

  lemma {:induction false} NoOpenerContiguous(lines: seq<string>, service: string)
    requires OpenerIndex(lines, service) == |lines|
    ensures Contiguous(lines, service)
  {
  }

  lemma {:induction false} RemoveAfter(pre: seq<string>, hd: string, run: seq<string>, post: seq<string>,
                                       service: string, other: string)
    requires ServiceName(service) && service != other && OpenerIndex(pre, other) < |pre|
    requires SplitAt(pre + [hd] + run + post, service, pre, hd, run, post)
    requires Of(Endpoints(post, Some(service)), service) == []
    requires Contiguous(pre + [hd] + run + post, other)
    ensures Contiguous(Removed(pre, hd, run, post), other)
  {
    hide Trim, Opens, InRun, OpenerIndex, RunLength, Of, Endpoints, NonEndpoints, ServiceName, Contiguous;
    var p, h, r, rest := SplitLines(pre, other);
    OtherOpener(hd, service, other);
    var tail, tail' := rest + [hd] + run + post, Removed(rest, hd, run, post);
    assert pre + [hd] + run + post == p + [h] + r + tail;
    SplitContiguous(p + [h] + r + tail, other, p, h, r, tail);
    assert Removed(pre, hd, run, post) == p + [h] + r + tail';
    SplitContiguous(p + [h] + r + tail', other, p, h, r, tail');
    AroundRun(rest, hd, run, post, service, Some(other));
    RemovedReads(rest, hd, run, post, service, Some(other));
    OfThree(Endpoints(rest, Some(other)), Endpoints(run, Some(service)), Endpoints(post, Some(service)), other);
    OfConcat(Endpoints(rest, Some(other)), Endpoints(post, Some(service)), other);
  }

  lemma {:induction false} RemoveBefore(pre: seq<string>, hd: string, run: seq<string>, post: seq<string>,
                                        service: string, other: string)
    requires service != other && OpenerIndex(pre, other) == |pre| && OpenerIndex(post, other) < |post|
    requires SplitAt(pre + [hd] + run + post, service, pre, hd, run, post)
    requires Contiguous(pre + [hd] + run + post, other)
    ensures Contiguous(Removed(pre, hd, run, post), other)
  {
    hide Trim, Opens, InRun, OpenerIndex, RunLength, Of, Endpoints, NonEndpoints, Contiguous;
    var p, h, r, rest := SplitLines(post, other);
    OtherOpener(hd, service, other);
    NonEndpointsInRun(run);
    RunNoOpener(run, other);
    RunNoOpener(NonEndpoints(run), other);
    OpenerAt(pre, other);
    assert pre[..|pre|] == pre;
    var x := pre + [hd] + run + p;
    assert pre + [hd] + run + post == x + [h] + r + rest;
    SplitContiguous(x + [h] + r + rest, other, x, h, r, rest);
    var y := Removed(pre, hd, run, p);
    assert Removed(pre, hd, run, post) == y + [h] + r + rest;
    SplitContiguous(y + [h] + r + rest, other, y, h, r, rest);
  }

  lemma {:induction false} RemoveKeepsContiguous(lines: seq<string>, service: string, other: string)
    requires ServiceName(service) && ServiceName(other) && service != other
    requires Contiguous(lines, service) && Contiguous(lines, other)
    ensures Contiguous(RemoveService(lines, service), other)
  {
    hide Opens, InRun, OpenerIndex, RunLength, Of, Endpoints, NonEndpoints, Contiguous, ServiceName, SplitAt;
    if OpenerIndex(lines, service) < |lines| {
      var pre, hd, run, post := SplitLines(lines, service);
      SplitContiguous(lines, service, pre, hd, run, post);
      SplitIs(lines, service, pre, hd, run, post);
      RemoveBeside(pre, hd, run, post, service, other);
    }
  }

  lemma {:induction false} SplitIs(lines: seq<string>, service: string, pre: seq<string>, hd: string,
          run: seq<string>, post: seq<string>)
    requires SplitAt(lines, service, pre, hd, run, post)
    ensures lines == pre + [hd] + run + post
  {
  }
}

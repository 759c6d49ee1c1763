/** What removing endpoints leaves in the body of a `[services]` section, for every
    body: per service with the exact condition, and for the three together by one
    reading of the lines. */
module ServicesRemoval {
  import opened Text
  import opened AwsParser
  import opened ServicesEditor

  // ---------------------------------------------------------------------
  // One service
  // ---------------------------------------------------------------------

  /** After the removal the service has no endpoint, and every other service has what
      it had. */
  ghost predicate Clean(lines: seq<string>, service: string, open: Option<string>) {
    var before, after := Endpoints(lines, open), Endpoints(RemoveService(lines, service), open);
    Of(after, service) == [] && forall other | other != service :: Of(after, other) == Of(before, other)
  }

  /** The removal is clean: the service is contiguous; or its opener goes, nothing is
      open above it, and no later opener has an endpoint. */
  predicate Removable(lines: seq<string>, service: string, open: Option<string>) {
    var i := OpenerIndex(lines, service);
    i < |lines| ==>
      var j := RunEnd(lines, i);
      var run, post := lines[i + 1..j], lines[j..];
      || Contiguous(lines, service)
      || (NonEndpoints(run) == [] && ServiceAfter(lines[..i], open) == None && Of(Endpoints(post, None), service) == [])
  }

  /** How many endpoint lines come before the next line that opens or closes. */
  function Loose(lines: seq<string>): nat {
    if lines == [] || NextService(lines[0], Some("")) != Some("") || NextService(lines[0], None) != None then 0
    else (if LineEndpoints(lines[0], Some("")) == [] then 0 else 1) + Loose(lines[1..])
  }

  /** A line that neither opens nor closes does so whatever is open; one that does
      leaves the same service open. */
  lemma {:induction false} LineOpens(l: string, a: Option<string>, b: Option<string>)
    ensures var plain := NextService(l, Some("")) == Some("") && NextService(l, None) == None;
            && (plain ==> NextService(l, a) == a)
            && (!plain ==> NextService(l, a) == NextService(l, b) && LineEndpoints(l, a) == [])
    ensures |LineEndpoints(l, a)| <= 1 && (a.Some? ==> (LineEndpoints(l, a) == [] <==> LineEndpoints(l, Some("")) == []))
    ensures LineEndpoints(l, a) != [] ==> a.Some? && LineEndpoints(l, a)[0].service == a.value
  {
    hide Trim, IsIndented;
    KeyIsNotEmpty(l);
  }

  lemma {:induction false} KeyIsNotEmpty(l: string)
    ensures !IsSkipped(l) && KeyValue(Trim(l)).Some? ==> KeyValue(Trim(l)).value.0 != ""
  {
    hide Trim, KeyValue;
    TrimTrimmed(l);
    if KeyValue(Trim(l)).Some? { KeyStart(Trim(l)); }
  }

  /** What of the endpoints depends on the service that is open before. */
  lemma {:induction false} OpenCounts(lines: seq<string>, open: Option<string>, service: string)
    ensures |Of(Endpoints(lines, open), service)|
         == |Of(Endpoints(lines, None), service)| + if open == Some(service) then Loose(lines) else 0
    ensures open != Some(service) ==> Of(Endpoints(lines, open), service) == Of(Endpoints(lines, None), service)
    decreases |lines|
  {
    hide NextService, LineEndpoints;
    if lines != [] {
      var l, t := lines[0], lines[1..];
      LineOpens(l, open, None);
      LineOpens(l, None, open);
      OfConcat(LineEndpoints(l, open), Endpoints(t, NextService(l, open)), service);
      OfConcat(LineEndpoints(l, None), Endpoints(t, NextService(l, None)), service);
      OfLine(l, open, service);
      OfLine(l, None, service);
      OpenCounts(t, NextService(l, open), service);
      OpenCounts(t, NextService(l, None), service);
    }
  }

  lemma {:induction false} OfLine(l: string, open: Option<string>, service: string)
    ensures Of(LineEndpoints(l, open), service) == if open == Some(service) && LineEndpoints(l, open) != [] then [LineEndpoints(l, open)[0].url] else []
  {
    hide NextService, LineEndpoints;
    LineOpens(l, open, None);
    var es := LineEndpoints(l, open);
    if es != [] {
      assert es == [es[0]] && es[1..] == [];
      assert Of(es, service) == (if es[0].service == service then [es[0].url] else []) + Of([], service);
    }
  }

  /** The removal of one service is clean exactly if the service is removable. */
  lemma {:induction false} CleanIffRemovable(lines: seq<string>, service: string, open: Option<string>)
    requires ServiceName(service) && open != Some(service)
    ensures Clean(lines, service, open) <==> Removable(lines, service, open)
  {
    hide Endpoints, ServiceAfter, Opens, InRun, ServiceName, OpenerIndex, RunLength, Of, NonEndpoints, RemoveService,
         Contiguous, SplitAt, RunEnd;
    if OpenerIndex(lines, service) == |lines| {
      NoOpenerContiguous(lines, service);
      ContiguousIsClean(lines, service, open);
    } else {
      var pre, hd, run, post := SplitLines(lines, service);
      SplitPlace(lines, service, pre, hd, run, post);
      SplitContiguous(lines, service, pre, hd, run, post);
      if Contiguous(lines, service) {
        ContiguousIsClean(lines, service, open);
      } else {
        SplitParts(lines, service, pre, hd, run, post);
        GapIsCleanIff(lines, pre, hd, run, post, service, open);
      }
    }
  }

  lemma {:induction false} SplitParts(lines: seq<string>, service: string, pre: seq<string>, hd: string,
          run: seq<string>, post: seq<string>)
    requires SplitAt(lines, service, pre, hd, run, post)
    ensures lines == pre + [hd] + run + post && NoOpener(pre, service) && Opens(hd, service) && AllInRun(run)
  {
  }

  lemma {:induction false} ContiguousIsClean(lines: seq<string>, service: string, open: Option<string>)
    requires ServiceName(service) && open != Some(service) && Contiguous(lines, service)
    ensures Clean(lines, service, open)
  {
    hide Endpoints, ServiceName, Of, RemoveService, Contiguous;
    forall other
      ensures var before, after := Endpoints(lines, open), Endpoints(RemoveService(lines, service), open);
              (other != service ==> Of(after, other) == Of(before, other)) && Of(after, service) == []
    {
      RemoveServiceReads(lines, service, open, other);
    }
  }

  /** A service with an endpoint outside its sub-section. */
  lemma {:induction false} GapIsCleanIff(lines: seq<string>, pre: seq<string>, hd: string, run: seq<string>,
          post: seq<string>, service: string, open: Option<string>)
    requires ServiceName(service) && open != Some(service) && lines == pre + [hd] + run + post
    requires NoOpener(pre, service) && Opens(hd, service) && AllInRun(run)
    requires RemoveService(lines, service) == Removed(pre, hd, run, post)
    requires Of(Endpoints(post, Some(service)), service) != []
    ensures Clean(lines, service, open) <==>
              NonEndpoints(run) == [] && ServiceAfter(pre, open) == None && Of(Endpoints(post, None), service) == []
  {
    hide Endpoints, ServiceAfter, Opens, InRun, ServiceName, Of, NonEndpoints, RemoveService, AllInRun, NoOpener,
         Loose;
    var before, after := Endpoints(lines, open), Endpoints(Removed(pre, hd, run, post), open);
    var o, e := ServiceAfter(pre, open), Endpoints(pre, open);
    AroundRun(pre, hd, run, post, service, open);
    NoOpenerReads(pre, service, open);
    GapReads(pre, hd, run, post, service, open);
    var p := if NonEndpoints(run) == [] then o else Some(service);
    forall other
      ensures Of(after, other) == Of(e, other) + Of(Endpoints(post, p), other)
      ensures other != service ==> Of(before, other) == Of(e, other) + Of(Endpoints(post, Some(service)), other)
    {
      OfConcat(e, Endpoints(post, p), other);
      OfThree(e, Endpoints(run, Some(service)), Endpoints(post, Some(service)), other);
      RunReads(run, service);
    }
    assert Of(after, service) == Of(Endpoints(post, p), service);
    OpenCounts(post, Some(service), service);
    if NonEndpoints(run) == [] && o.Some? {
      OpenCounts(post, o, service);
      OpenCounts(post, o, o.value);
      OpenCounts(post, Some(service), o.value);
      if Of(after, service) == [] {
        assert |Of(after, o.value)| > |Of(before, o.value)|;
      }
    } else if NonEndpoints(run) == [] {
      forall other | other != service ensures Of(Endpoints(post, Some(service)), other) == Of(Endpoints(post, None), other) {
        OpenCounts(post, Some(service), other);
      }
    }
  }

  lemma {:induction false} GapReads(pre: seq<string>, hd: string, run: seq<string>, post: seq<string>,
          service: string, open: Option<string>)
    requires ServiceName(service) && Opens(hd, service) && AllInRun(run)
    ensures Endpoints(Removed(pre, hd, run, post), open)
         == Endpoints(pre, open) + Endpoints(post, if NonEndpoints(run) == [] then ServiceAfter(pre, open) else Some(service))
  {
    hide Endpoints, ServiceAfter, Opens, InRun, ServiceName, NonEndpoints, AllInRun;
    var kept := NonEndpoints(run);
    NonEndpointsReads(run, Some(service));
    if kept == [] {
      assert pre + [] + post == pre + post;
      EndpointsConcat(pre, post, open);
    } else {
      assert pre + ([hd] + kept) + post == pre + [hd] + kept + post;
      AroundRun(pre, hd, kept, post, service, open);
      assert Endpoints(pre, open) + [] == Endpoints(pre, open);
    }
  }

  // ---------------------------------------------------------------------
  // The three services together
  // ---------------------------------------------------------------------

  const A: string := "secrets_manager"
  const B: string := "secrets-manager"
  const C: string := "ssm"

  lemma {:induction false} Names()
    ensures ServiceName(A) && ServiceName(B) && ServiceName(C) && A != B && A != C && B != C
  {
    NamesAreServices();
    assert A[7] != B[7] && |A| != |C| && |B| != |C|;
  }

  /** The managed service a line opens for the first time. */
  function FirstOpened(line: string, seen: set<string>): Option<string> {
    if A !in seen && Opens(line, A) then Some(A)
    else if B !in seen && Opens(line, B) then Some(B)
    else if C !in seen && Opens(line, C) then Some(C)
    else None
  }

  /** The endpoints that are left when the managed ones are removed: those of the
      first sub-section of each managed service are gone, and so is its opener if
      nothing else was in it; whatever follows belongs to what is then open. */
  function Left(lines: seq<string>, open: Option<string>, seen: set<string>): seq<Endpoint>
    decreases |lines|
  {
    if lines == [] then [] else
      match FirstOpened(lines[0], seen)
      case None => LineEndpoints(lines[0], open) + Left(lines[1..], NextService(lines[0], open), seen)
      case Some(service) =>
        var n := 1 + RunLength(lines[1..]);
        Left(lines[n..], if NonEndpoints(lines[1..n]) == [] then open else Some(service), seen + {service})
  }

  /** The removal clears the body. */
  predicate Clears(lines: seq<string>) {
    UrlOf(Left(lines, None, {})) == None
  }

  /** The removal of one service, unless its first sub-section is behind. */
  function RemoveNext(lines: seq<string>, service: string, seen: set<string>): seq<string> {
    if service in seen then lines else RemoveService(lines, service)
  }

  function RemoveUnseen(lines: seq<string>, seen: set<string>): seq<string> {
    RemoveNext(RemoveNext(RemoveNext(lines, A, seen), B, seen), C, seen)
  }

  predicate StartsPlain(lines: seq<string>) {
    lines != [] ==> !InRun(lines[0])
  }

  lemma {:induction false} OpenerSkips(x: seq<string>, rest: seq<string>, service: string)
    requires NoOpener(x, service)
    ensures OpenerIndex(x + rest, service) == |x| + OpenerIndex(rest, service)
  {
    hide Opens;
    if x == [] {
      assert x + rest == rest;
    } else {
      assert (x + rest)[1..] == x[1..] + rest;
      OpenerSkips(x[1..], rest, service);
    }
  }

  lemma {:induction false} RemoveSkips(x: seq<string>, rest: seq<string>, service: string, seen: set<string>)
    requires service !in seen ==> NoOpener(x, service)
    ensures RemoveNext(x + rest, service, seen) == x + RemoveNext(rest, service, seen)
  {
    hide Opens, InRun, NonEndpoints, OpenerIndex, RunLength, Contiguous;
    if service !in seen {
      OpenerSkips(x, rest, service);
      if OpenerIndex(rest, service) < |rest| {
        var pre, hd, run, post := SplitLines(rest, service);
        SplitContiguous(rest, service, pre, hd, run, post);
        assert x + rest == (x + pre) + [hd] + run + post;
        SplitContiguous(x + rest, service, x + pre, hd, run, post);
        hide RemoveService;
        RemovedAfter(x, pre, hd, run, post);
      }
    }
  }

  lemma {:induction false} RemovedAfter(x: seq<string>, pre: seq<string>, hd: string, run: seq<string>,
          post: seq<string>)
    ensures Removed(x + pre, hd, run, post) == x + Removed(pre, hd, run, post)
  {
    hide NonEndpoints;
    ConcatAssoc(x, pre, KeptOf(hd, run));
    ConcatAssoc(x, pre + KeptOf(hd, run), post);
  }

  lemma {:induction false} RemoveStartsPlain(rest: seq<string>, service: string, seen: set<string>)
    requires StartsPlain(rest)
    ensures StartsPlain(RemoveNext(rest, service, seen))
  {
    hide Opens, InRun, NonEndpoints, RunLength;
    if service !in seen {
      var i := OpenerIndex(rest, service);
      if i < |rest| {
        RunAt(rest[i + 1..]);
        var j := i + 1 + RunLength(rest[i + 1..]);
        assert rest[j..] != [] ==> rest[j..][0] == rest[i + 1..][j - i - 1];
      }
    }
  }

  function KeptOf(hd: string, run: seq<string>): seq<string> {
    if NonEndpoints(run) == [] then [] else [hd] + NonEndpoints(run)
  }

  lemma {:induction false} RemoveOwn(hd: string, run: seq<string>, rest: seq<string>, service: string,
          seen: set<string>)
    requires service !in seen && Opens(hd, service) && AllInRun(run) && StartsPlain(rest)
    ensures RemoveNext([hd] + run + rest, service, seen) == KeptOf(hd, run) + rest
  {
    hide Opens, InRun, NonEndpoints, OpenerIndex, RunLength, AllInRun, RemoveService, Contiguous;
    var lines := [hd] + run + rest;
    assert lines == [] + [hd] + run + rest;
    assert NoOpener([], service);
    SplitContiguous(lines, service, [], hd, run, rest);
    assert [] + KeptOf(hd, run) == KeptOf(hd, run);
  }

  /** Another service has no opener in a sub-section or in what is kept of it. */
  lemma {:induction false} OtherSkips(hd: string, run: seq<string>, service: string, other: string)
    requires Opens(hd, service) && AllInRun(run) && service != other
    ensures NoOpener([hd] + run, other) && NoOpener(KeptOf(hd, run), other)
  {
    hide Opens, InRun, NonEndpoints;
    OtherOpener(hd, service, other);
    NonEndpointsInRun(run);
    RunNoOpener(run, other);
    RunNoOpener(NonEndpoints(run), other);
  }

  lemma {:induction false} PlainStep(l: string, rest: seq<string>, seen: set<string>)
    requires FirstOpened(l, seen) == None
    ensures RemoveUnseen([l] + rest, seen) == [l] + RemoveUnseen(rest, seen)
  {
    hide Opens, RemoveNext;
    RemoveSkips([l], rest, A, seen);
    var r1 := RemoveNext(rest, A, seen);
    RemoveSkips([l], r1, B, seen);
    RemoveSkips([l], RemoveNext(r1, B, seen), C, seen);
  }

  /** One removal, at the first sub-section of service `s`. */
  lemma {:induction false} Stage(hd: string, run: seq<string>, x: seq<string>, rest: seq<string>, s: string,
          t: string,
          seen: set<string>)
    requires Opens(hd, s) && s !in seen && AllInRun(run) && StartsPlain(rest)
    requires x == [hd] + run || (t != s && x == KeptOf(hd, run))
    ensures RemoveNext(x + rest, t, seen) == (if t == s then KeptOf(hd, run) else x) + RemoveNext(rest, t, seen + {s})
    ensures StartsPlain(RemoveNext(rest, t, seen + {s}))
  {
    hide Opens, InRun, NonEndpoints, KeptOf, AllInRun, StartsPlain, NoOpener, RemoveService;
    RemoveStartsPlain(rest, t, seen + {s});
    if t == s {
      RemoveOwn(hd, run, rest, s, seen);
    } else {
      OtherSkips(hd, run, s, t);
      RemoveSkips(x, rest, t, seen);
    }
  }

  lemma {:induction false} OpenerStep(hd: string, run: seq<string>, rest: seq<string>, seen: set<string>)
    requires FirstOpened(hd, seen).Some? && AllInRun(run) && StartsPlain(rest)
    ensures RemoveUnseen([hd] + run + rest, seen) == KeptOf(hd, run) + RemoveUnseen(rest, seen + {FirstOpened(hd, seen).value})
  {
    hide Opens, RemoveNext, InRun, NonEndpoints, KeptOf, AllInRun, StartsPlain;
    Names();
    var s := FirstOpened(hd, seen).value;
    var x, kept, seen' := [hd] + run, KeptOf(hd, run), seen + {s};
    Stage(hd, run, x, rest, s, A, seen);
    var r1 := RemoveNext(rest, A, seen');
    var x1 := if s == A then kept else x;
    Stage(hd, run, x1, r1, s, B, seen);
    var r2 := RemoveNext(r1, B, seen');
    var x2 := if s == C then x else kept;
    Stage(hd, run, x2, r2, s, C, seen);
  }

  /** Whatever the body, what the removal leaves is what one reading finds. */
  lemma {:induction false} RemovalMeaning(lines: seq<string>, open: Option<string>, seen: set<string>)
    ensures Endpoints(RemoveUnseen(lines, seen), open) == Left(lines, open, seen)
    decreases |lines|
  {
    hide Opens, RemoveUnseen, InRun, NonEndpoints, NextService, LineEndpoints, FirstOpened, AllInRun, RunLength,
         StartsPlain, ServiceName;
    if lines == [] {
      NothingToRemove(seen);
    } else {
      var l, t := lines[0], lines[1..];
      assert lines == [l] + t;
      match FirstOpened(l, seen) {
        case None =>
          PlainStep(l, t, seen);
          RemovalMeaning(t, NextService(l, open), seen);
          assert ([l] + RemoveUnseen(t, seen))[1..] == RemoveUnseen(t, seen);
        case Some(service) =>
          var n := 1 + RunLength(t);
          var run, rest := lines[1..n], lines[n..];
          assert t == run + rest && t[..n - 1] == run;
          RunStops(t);
          assert [l] + run + rest == lines;
          assert rest == t[n - 1..];
          OpenerStep(l, run, rest, seen);
          FirstOpens(l, seen);
          KeptReads(l, run, RemoveUnseen(rest, seen + {service}), service, open);
          RemovalMeaning(rest, if NonEndpoints(run) == [] then open else Some(service), seen + {service});
      }
    }
  }

  lemma {:induction false} NothingToRemove(seen: set<string>)
    ensures RemoveUnseen([], seen) == []
  {
  }

  lemma {:induction false} RunStops(t: seq<string>)
    ensures AllInRun(t[..RunLength(t)]) && StartsPlain(t[RunLength(t)..])
  {
    hide InRun, RunLength;
    RunAt(t);
  }

  lemma {:induction false} FirstOpens(l: string, seen: set<string>)
    requires FirstOpened(l, seen).Some?
    ensures Opens(l, FirstOpened(l, seen).value) && ServiceName(FirstOpened(l, seen).value)
  {
    hide Opens, ServiceName;
    Names();
  }

  lemma {:induction false} KeptReads(hd: string, run: seq<string>, rest: seq<string>, service: string,
          open: Option<string>)
    requires ServiceName(service) && Opens(hd, service) && AllInRun(run)
    ensures Endpoints(KeptOf(hd, run) + rest, open) == Endpoints(rest, if NonEndpoints(run) == [] then open else Some(service))
  {
    hide Endpoints, Opens, InRun, NonEndpoints, ServiceName, AllInRun, ServiceAfter;
    var kept := NonEndpoints(run);
    NonEndpointsReads(run, Some(service));
    if kept == [] {
      assert [] + rest == rest;
    } else {
      assert [hd] + kept + rest == [] + [hd] + kept + rest;
      AroundRun([], hd, kept, rest, service, open);
      NoLines(open);
      assert [] + [] + Endpoints(rest, Some(service)) == Endpoints(rest, Some(service));
    }
  }

  lemma {:induction false} NoLines(open: Option<string>)
    ensures Endpoints([], open) == []
  {
  }

  /** Removing the endpoints of a body leaves no managed endpoint exactly if the
      reading finds none. */
  lemma {:induction false} RemoveLinesMeaning(lines: seq<string>)
    ensures Endpoints(EditLines(lines, None), None) == Left(lines, None, {})
    ensures UrlOf(Endpoints(EditLines(lines, None), None)) == None <==> Clears(lines)
  {
    hide Endpoints, Left, RemoveService, UrlOf;
    RemovalMeaning(lines, None, {});
  }

  lemma {:induction false} NoManager(es: seq<Endpoint>)
    requires Of(es, "secrets_manager") == [] && Of(es, "secrets-manager") == []
    ensures ManagerUrl(es) == None
  {
    if es != [] { NoManager(es[1..]); }
  }

  lemma {:induction false} NoSsm(es: seq<Endpoint>)
    requires Of(es, "ssm") == []
    ensures SsmUrl(es) == None
  {
    if es != [] {
      var init, last := es[..|es| - 1], es[|es| - 1];
      assert es == init + [last];
      OfConcat(init, [last], "ssm");
      NoSsm(init);
      assert Of([last], "ssm") == (if last.service == "ssm" then [last.url] else []) + Of([last][1..], "ssm");
    }
  }

  predicate AllContiguous(lines: seq<string>) {
    Contiguous(lines, "secrets_manager") && Contiguous(lines, "secrets-manager") && Contiguous(lines, "ssm")
  }

  /** The removal of a whole section body: the parser reports no endpoint, and the
      endpoints of every service the edit does not manage stay as they were. */
  lemma {:induction false} RemoveLinesReads(lines: seq<string>, other: string)
    requires AllContiguous(lines)
    ensures var before, after := Endpoints(lines, None), Endpoints(EditLines(lines, None), None);
            && UrlOf(after) == None
            && (other !in VALUE_SOURCE_SERVICES ==> Of(after, other) == Of(before, other))
  {
    hide Trim, Endpoints, RemoveService, Of, ServiceName, SsmUrl, ManagerUrl, Contiguous;
    NamesAreServices();
    var a, b, c := "secrets_manager", "secrets-manager", "ssm";
    assert a != b && a != c && b != c by { assert a[7] != b[7] && |a| != |c|; }
    var l1 := RemoveService(lines, a);
    var l2 := RemoveService(l1, b);
    RemoveKeepsContiguous(lines, a, b);
    RemoveKeepsContiguous(lines, a, c);
    RemoveKeepsContiguous(l1, b, c);
    RemoveServiceReads(lines, a, None, other);
    RemoveServiceReads(l1, b, None, a);
    RemoveServiceReads(l1, b, None, other);
    RemoveServiceReads(l2, c, None, a);
    RemoveServiceReads(l2, c, None, b);
    RemoveServiceReads(l2, c, None, other);
    var es := Endpoints(RemoveService(l2, c), None);
    NoManager(es);
    NoSsm(es);
    assert a in VALUE_SOURCE_SERVICES && b in VALUE_SOURCE_SERVICES && c in VALUE_SOURCE_SERVICES by {
      assert VALUE_SOURCE_SERVICES[0] == a && VALUE_SOURCE_SERVICES[1] == b && VALUE_SOURCE_SERVICES[2] == c;
    }
  }

  /** Contiguous services are cleared. */
  lemma {:induction false} ContiguousClears(lines: seq<string>)
    requires AllContiguous(lines)
    ensures Clears(lines)
  {
    hide Endpoints, Left, EditLines, UrlOf, AllContiguous, Of;
    RemoveLinesReads(lines, "");
    RemoveLinesMeaning(lines);
  }
}

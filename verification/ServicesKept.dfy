/** Every line of a `[services]` section that is no endpoint and opens no managed
    service comes through an edit, in its place among the others. */
module ServicesKept {
  import opened Text
  import opened DocEdits
  import opened ServicesEditor
  import opened ServicesRemoval
  import opened ServicesStable

  predicate IsOwn(l: string) {
    IsEndpointLine(l) || Opens(l, A) || Opens(l, B) || Opens(l, C)
  }

  /** What a line says, and whether it is indented; nothing for a blank line, an
      endpoint or the opener of a managed service. */
  function KeptLine(l: string): seq<(string, bool)> {
    if Trim(l) == "" || IsOwn(l) then [] else [(Trim(l), IsIndented(l))]
  }

  function OtherLines(lines: seq<string>): seq<(string, bool)> {
    if lines == [] then [] else KeptLine(lines[0]) + OtherLines(lines[1..])
  }

  lemma {:induction false} KeptConcat(a: seq<string>, b: seq<string>)
    ensures OtherLines(a + b) == OtherLines(a) + OtherLines(b)
  {
    hide KeptLine;
    if a == [] {
      assert a + b == b;
    } else {
      assert (a + b)[1..] == a[1..] + b;
      KeptConcat(a[1..], b);
      ConcatAssoc(KeptLine(a[0]), OtherLines(a[1..]), OtherLines(b));
    }
  }

  lemma {:induction false} KeptThree(a: seq<string>, b: seq<string>, c: seq<string>)
    ensures OtherLines(a + b + c) == OtherLines(a) + OtherLines(b) + OtherLines(c)
  {
    hide OtherLines;
    KeptConcat(a + b, c);
    KeptConcat(a, b);
  }

  lemma {:induction false} KeptOne(l: string)
    ensures OtherLines([l]) == KeptLine(l)
    ensures IsOwn(l) ==> OtherLines([l]) == []
  {
    hide Trim, IsOwn;
    assert [l][1..] == [];
    assert OtherLines([l]) == KeptLine(l) + OtherLines([]);
  }

  lemma {:induction false} KeptCons(l: string, t: seq<string>)
    ensures OtherLines([l] + t) == KeptLine(l) + OtherLines(t)
  {
    hide KeptLine;
    assert ([l] + t)[1..] == t;
  }

  lemma {:induction false} SetRunKept(run: seq<string>, url: string)
    requires AllInRun(run)
    ensures OtherLines(SetRun(run, url)) == OtherLines(run)
  {
    hide KeptLine, IsEndpointLine, RewriteLine, NewEndpointLine, Trim, LineKeyValue, IsIndented;
    if run == [] {
      NewLineReads(url);
      EndpointIsOwn(NewEndpointLine(url));
      KeptOne(NewEndpointLine(url));
    } else {
      assert InRun(run[0]);
      assert run == [run[0]] + run[1..];
      if IsEndpointLine(run[0]) {
        RewriteReads(run[0], url);
        EndpointIsOwn(run[0]);
        EndpointIsOwn(RewriteLine(run[0], url));
        KeptCons(run[0], run[1..]);
        KeptCons(RewriteLine(run[0], url), run[1..]);
      } else {
        SetRunKept(run[1..], url);
        KeptCons(run[0], SetRun(run[1..], url));
      }
    }
  }

  lemma {:induction false} EndpointIsOwn(l: string)
    requires IsEndpointLine(l)
    ensures KeptLine(l) == []
  {
    hide Trim;
  }

  lemma {:induction false} OpenerIsOwn(l: string, service: string)
    requires Opens(l, service) && (service == A || service == B || service == C)
    ensures OtherLines([l]) == []
  {
    hide Opens, IsEndpointLine;
    KeptOne(l);
  }

  lemma {:induction false} NonEndpointsKept(run: seq<string>)
    ensures OtherLines(NonEndpoints(run)) == OtherLines(run)
  {
    hide KeptLine, IsEndpointLine;
    if run != [] {
      NonEndpointsKept(run[1..]);
      assert run == [run[0]] + run[1..];
      KeptCons(run[0], run[1..]);
      if IsEndpointLine(run[0]) {
        EndpointIsOwn(run[0]);
        assert [] + NonEndpoints(run[1..]) == NonEndpoints(run[1..]);
      } else {
        KeptCons(run[0], NonEndpoints(run[1..]));
      }
    }
  }

  lemma {:induction false} SetServiceKept(lines: seq<string>, service: string, url: string)
    requires ServiceName(service) && (service == A || service == B || service == C)
    ensures OtherLines(SetService(lines, service, url)) == OtherLines(lines)
  {
    hide Opens, InRun, OpenerIndex, RunLength, SetRun, ServiceName, OtherLines, ContentLength, NewEndpointLine,
         IsEndpointLine, Trim, LineKeyValue;
    if OpenerIndex(lines, service) < |lines| {
      var pre, hd, run, post := SplitLines(lines, service);
      SplitPlace(lines, service, pre, hd, run, post);
      SetRunKept(run, url);
      assert lines[..|pre| + 1] == pre + [hd];
      KeptThree(pre + [hd], run, post);
      KeptThree(pre + [hd], SetRun(run, url), post);
    } else {
      var n := ContentLength(lines);
      var l, e := service + " =\n", NewEndpointLine(url);
      SetAbsentIs(lines, service, url, n);
      NewOpenerReads(service);
      OpenerIsOwn(l, service);
      NewLineReads(url);
      EndpointIsOwn(e);
      KeptOne(e);
      KeptThree(lines[..n] + [l], [e], lines[n..]);
      KeptConcat(lines[..n], [l]);
      KeptConcat(lines[..n], lines[n..]);
      assert lines == lines[..n] + lines[n..];
      assert OtherLines(lines[..n]) + [] + [] == OtherLines(lines[..n]);
    }
  }

  lemma {:induction false} RemoveServiceKept(lines: seq<string>, service: string)
    requires service == A || service == B || service == C
    ensures OtherLines(RemoveService(lines, service)) == OtherLines(lines)
  {
    hide Opens, InRun, OpenerIndex, RunLength, OtherLines, NonEndpoints, Contiguous, RemoveService;
    if OpenerIndex(lines, service) < |lines| {
      var pre, hd, run, post := SplitLines(lines, service);
      SplitContiguous(lines, service, pre, hd, run, post);
      OpenerIsOwn(hd, service);
      NonEndpointsKept(run);
      var kept := NonEndpoints(run);
      KeptThree(pre + [hd], run, post);
      KeptConcat(pre, [hd]);
      KeptConcat([hd], kept);
      KeptThree(pre, if kept == [] then [] else [hd] + kept, post);
      assert OtherLines(pre) + [] == OtherLines(pre) && [] + OtherLines(kept) == OtherLines(kept);
      if kept == [] { KeptNothing(); }
    } else {
      RemoveNone(lines, service);
    }
  }

  lemma {:induction false} KeptNothing()
    ensures OtherLines([]) == []
  {
  }

  lemma {:induction false} RemoveNone(lines: seq<string>, service: string)
    requires OpenerIndex(lines, service) == |lines|
    ensures RemoveService(lines, service) == lines
  {
  }

  lemma {:induction false} EditLinesKept(lines: seq<string>, url: Option<string>)
    ensures OtherLines(EditLines(lines, url)) == OtherLines(lines)
  {
    hide OtherLines, SetService, RemoveService, ServiceName;
    Names();
    match url {
      case Some(u) =>
        var l1 := SetService(lines, A, u);
        SetServiceKept(lines, A, u);
        SetServiceKept(l1, B, u);
        SetServiceKept(SetService(l1, B, u), C, u);
      case None =>
        var l1 := RemoveService(lines, A);
        RemoveServiceKept(lines, A);
        RemoveServiceKept(l1, B);
        RemoveServiceKept(RemoveService(l1, B), C);
    }
  }

  // ---------------------------------------------------------------------
  // Line breaks do not matter
  // ---------------------------------------------------------------------

  lemma {:induction false} SameKept(cs: seq<string>, ds: seq<string>)
    requires SameReads(cs, ds)
    ensures OtherLines(cs) == OtherLines(ds)
  {
    hide Trim, IsIndented, Opens, IsEndpointLine;
    if cs != [] {
      SameEndpointLine(cs[0], ds[0], A);
      SameEndpointLine(cs[0], ds[0], B);
      SameEndpointLine(cs[0], ds[0], C);
      assert SameReads(cs[1..], ds[1..]);
      SameKept(cs[1..], ds[1..]);
    }
  }

  lemma {:induction false} AddBreakKept(s: string, b: char)
    requires IsLineBreak(b)
    ensures OtherLines(Chunks(s + [b])) == OtherLines(Chunks(s))
  {
    hide Chunks, Trim, EndsLine, OtherLines, SameReads, IsOwn;
    ChunksAddBreak(s, b);
    var cs := Chunks(s);
    if EndsLine(s) {
      TrimBreak(b);
      KeptOne([b]);
      KeptConcat(cs, [[b]]);
    } else {
      var init, last := cs[..|cs| - 1], cs[|cs| - 1];
      assert cs == init + [last];
      SameReadsLast(init, last, b);
      SameKept(init + [last + [b]], cs);
    }
  }

  lemma {:induction false} TrimBreaksKept(s: string)
    ensures OtherLines(Chunks(TrimBreaks(s))) == OtherLines(Chunks(s))
  {
    hide Chunks, OtherLines;
    if s != "" && IsLineBreak(s[|s| - 1]) {
      TrimBreaksKept(s[..|s| - 1]);
      AddBreakKept(s[..|s| - 1], s[|s| - 1]);
      assert s == s[..|s| - 1] + [s[|s| - 1]];
    }
  }

  lemma {:induction false} EndedKept(s: string)
    ensures OtherLines(Chunks(EndedLine(s))) == OtherLines(Chunks(s))
  {
    hide Chunks, OtherLines;
    if !EndsLine(s) { AddBreakKept(s, '\n'); }
  }

  /** The edited body keeps every other line. */
  lemma {:induction false} EditBodyKept(body: string, url: Option<string>)
    requires Chunks(Flatten(EditLines(Chunks(EndedLine(body)), url))) == EditLines(Chunks(EndedLine(body)), url)
    ensures OtherLines(Chunks(EditBody(body, url))) == OtherLines(Chunks(body))
  {
    hide Chunks, OtherLines, EditLines, Flatten, TrimBreaks, EndedLine;
    EndedKept(body);
    EditLinesKept(Chunks(EndedLine(body)), url);
  }
}

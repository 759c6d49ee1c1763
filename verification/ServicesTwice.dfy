/** Removing endpoints a second time: when there is nothing left to remove. */
module ServicesTwice {
  import opened Text
  import opened AwsParser
  import opened DocEdits
  import opened ServicesEditor
  import opened ServicesStable
  import opened ServicesRemoval

  predicate HasEndpoint(run: seq<string>) {
    exists k | 0 <= k < |run| :: IsEndpointLine(run[k])
  }

  /** A removal has nothing to do: the first sub-section of the service has other lines
      and no endpoint. */
  predicate NothingToDo(lines: seq<string>, service: string) {
    if lines == [] then true
    else if !Opens(lines[0], service) then NothingToDo(lines[1..], service)
    else
      var n := 1 + RunLength(lines[1..]);
      n > 1 && !HasEndpoint(lines[1..n])
  }

  /** One removal is enough: something is left of the first sub-section, or nothing is
      to be done for the next one. */
  predicate Settles(lines: seq<string>, service: string) {
    if lines == [] then true
    else if !Opens(lines[0], service) then Settles(lines[1..], service)
    else
      var n := 1 + RunLength(lines[1..]);
      NonEndpoints(lines[1..n]) != [] || NothingToDo(lines[n..], service)
  }

  predicate AllNothingToDo(lines: seq<string>) {
    NothingToDo(lines, A) && NothingToDo(lines, B) && NothingToDo(lines, C)
  }

  predicate AllSettle(lines: seq<string>) {
    Settles(lines, A) && Settles(lines, B) && Settles(lines, C)
  }

  // ---------------------------------------------------------------------
  // Reading the definitions along a text
  // ---------------------------------------------------------------------

  lemma {:induction false} Skips(x: seq<string>, rest: seq<string>, service: string)
    requires NoOpener(x, service)
    ensures NothingToDo(x + rest, service) == NothingToDo(rest, service)
    ensures Settles(x + rest, service) == Settles(rest, service)
  {
    hide Opens, NonEndpoints, HasEndpoint, RunLength;
    if x == [] {
      assert x + rest == rest;
    } else {
      assert (x + rest)[1..] == x[1..] + rest && (x + rest)[0] == x[0];
      Skips(x[1..], rest, service);
    }
  }

  lemma {:induction false} AtOpener(hd: string, run: seq<string>, rest: seq<string>, service: string)
    requires Opens(hd, service) && AllInRun(run) && StartsPlain(rest)
    ensures NothingToDo([hd] + run + rest, service) <==> run != [] && !HasEndpoint(run)
    ensures Settles([hd] + run + rest, service) <==> NonEndpoints(run) != [] || NothingToDo(rest, service)
  {
    hide Opens, NonEndpoints, HasEndpoint, InRun, RunLength;
    var lines := [hd] + run + rest;
    assert lines[1..] == run + rest;
    RunUnique(run, rest);
    assert lines[1..1 + |run|] == run && lines[1 + |run|..] == rest;
  }

  lemma {:induction false} RemoveIs(lines: seq<string>, service: string)
    ensures RemoveNext(lines, service, {}) == RemoveService(lines, service)
  {
  }

  /** A text is empty, or starts with a line that opens nothing of interest, or with a
      sub-section. */
  lemma {:induction false} Runs(lines: seq<string>) returns (hd: string, run: seq<string>, rest: seq<string>)
    requires lines != []
    ensures lines == [hd] + run + rest && hd == lines[0] && AllInRun(run) && StartsPlain(rest)
  {
    hide InRun, RunLength;
    hd := lines[0];
    var t := lines[1..];
    RunStops(t);
    run, rest := t[..RunLength(t)], t[RunLength(t)..];
    assert t == run + rest;
  }

  // ---------------------------------------------------------------------
  // The removal of one service
  // ---------------------------------------------------------------------

  function NonBlank(lines: seq<string>): nat {
    if lines == [] then 0 else (if Trim(lines[0]) == "" then 0 else 1) + NonBlank(lines[1..])
  }

  lemma {:induction false} NonBlankConcat(a: seq<string>, b: seq<string>)
    ensures NonBlank(a + b) == NonBlank(a) + NonBlank(b)
  {
    hide Trim;
    if a == [] {
      assert a + b == b;
    } else {
      assert (a + b)[1..] == a[1..] + b;
      NonBlankConcat(a[1..], b);
    }
  }

  lemma {:induction false} NonBlankRun(run: seq<string>)
    requires AllInRun(run)
    ensures NonBlank(run) == |run|
  {
    hide Trim, IsIndented;
    if run != [] {
      assert InRun(run[0]);
      NonBlankRun(run[1..]);
    }
  }

  lemma {:induction false} KeptSize(run: seq<string>)
    ensures |NonEndpoints(run)| <= |run|
    ensures NonEndpoints(run) == run <==> !HasEndpoint(run)
    ensures |NonEndpoints(run)| == |run| <==> !HasEndpoint(run)
  {
    hide IsEndpointLine;
    if run != [] {
      KeptSize(run[1..]);
      assert HasEndpoint(run) <==> IsEndpointLine(run[0]) || HasEndpoint(run[1..]) by {
        if HasEndpoint(run[1..]) {
          var k :| 0 <= k < |run[1..]| && IsEndpointLine(run[1..][k]);
          assert run[k + 1] == run[1..][k];
        }
        if k :| 0 <= k < |run| && IsEndpointLine(run[k]) {
          if k > 0 { assert run[1..][k - 1] == run[k]; }
        }
      }
    }
  }

  lemma {:induction false} OpenerNotBlank(hd: string, service: string)
    requires Opens(hd, service)
    ensures Trim(hd) != ""
  {
    hide Trim, KeyValue;
    EmptyKey();
  }

  /** A removal takes lines that are not blank, or none. */
  lemma {:induction false} RemoveShrinks(lines: seq<string>, service: string)
    ensures NonBlank(RemoveService(lines, service)) <= NonBlank(lines)
    ensures NonBlank(RemoveService(lines, service)) == NonBlank(lines) <==> NothingToDo(lines, service)
    ensures NothingToDo(lines, service) ==> RemoveService(lines, service) == lines
    decreases |lines|
  {
    hide Opens, NonEndpoints, HasEndpoint, InRun, RunLength, RemoveService, Trim, NonBlank, NothingToDo, AllInRun,
         StartsPlain;
    if lines == [] {
      NothingAtAll(service);
    } else {
      RemoveIs(lines, service);
      var hd, run, rest := Runs(lines);
      var t := run + rest;
      assert lines == [hd] + t;
      if Opens(hd, service) {
        RemoveOwn(hd, run, rest, service, {});
        AtOpener(hd, run, rest, service);
        OwnShrinks(hd, run, rest, service);
      } else {
        OneSkips(hd, t, service);
        RemoveSkips([hd], t, service, {});
        RemoveIs(t, service);
        RemoveShrinks(t, service);
        NonBlankConcat([hd], t);
        NonBlankConcat([hd], RemoveService(t, service));
      }
    }
  }

  lemma {:induction false} OneSkips(hd: string, t: seq<string>, service: string)
    requires !Opens(hd, service)
    ensures NoOpener([hd], service)
    ensures NothingToDo([hd] + t, service) == NothingToDo(t, service) && Settles([hd] + t, service) == Settles(t, service)
  {
    hide Opens, NothingToDo, Settles;
    Skips([hd], t, service);
  }

  lemma {:induction false} NothingAtAll(service: string)
    ensures RemoveService([], service) == [] && NothingToDo([], service) && Settles([], service)
  {
  }

  lemma {:induction false} OwnShrinks(hd: string, run: seq<string>, rest: seq<string>, service: string)
    requires Opens(hd, service) && AllInRun(run)
    ensures var before, after := [hd] + run + rest, KeptOf(hd, run) + rest;
            && NonBlank(after) <= NonBlank(before)
            && (NonBlank(after) == NonBlank(before) <==> run != [] && !HasEndpoint(run))
            && (run != [] && !HasEndpoint(run) ==> after == before)
  {
    hide Opens, HasEndpoint, InRun, Trim, NonBlank, NonEndpoints, AllInRun;
    var kept := NonEndpoints(run);
    OpenerNotBlank(hd, service);
    KeptSize(run);
    NonEndpointsInRun(run);
    NonBlankRun(run);
    NonBlankRun(kept);
    NonBlankConcat([hd] + run, rest);
    NonBlankConcat([hd], run);
    NonBlankConcat([hd], kept);
    NonBlankConcat(KeptOf(hd, run), rest);
    OneNonBlank(hd);
  }

  lemma {:induction false} OneNonBlank(hd: string)
    requires Trim(hd) != ""
    ensures NonBlank([hd]) == 1 && NonBlank([]) == 0
  {
    hide Trim;
    assert [hd][1..] == [];
  }

  /** After a removal nothing is to be done exactly if one removal is enough. */
  lemma {:induction false} RemoveSettles(lines: seq<string>, service: string)
    ensures NothingToDo(RemoveService(lines, service), service) <==> Settles(lines, service)
    decreases |lines|
  {
    hide Opens, NonEndpoints, HasEndpoint, InRun, RunLength, RemoveService, Settles, NothingToDo, AllInRun,
         StartsPlain;
    if lines == [] {
      NothingAtAll(service);
    } else {
      RemoveIs(lines, service);
      var hd, run, rest := Runs(lines);
      var t := run + rest;
      assert lines == [hd] + t;
      if Opens(hd, service) {
        RemoveOwn(hd, run, rest, service, {});
        AtOpener(hd, run, rest, service);
        var kept := NonEndpoints(run);
        if kept == [] {
          assert [] + rest == rest;
        } else {
          NonEndpointsInRun(run);
          KeptSize(run);
          KeptHasNone(run);
          AtOpener(hd, kept, rest, service);
        }
      } else {
        OneSkips(hd, t, service);
        RemoveSkips([hd], t, service, {});
        RemoveIs(t, service);
        OneSkips(hd, RemoveService(t, service), service);
        RemoveSettles(t, service);
      }
    }
  }

  lemma {:induction false} KeptHasNone(run: seq<string>)
    ensures !HasEndpoint(NonEndpoints(run))
  {
    hide IsEndpointLine;
    if run != [] { KeptHasNone(run[1..]); }
  }

  /** The removal of another service changes neither. */
  lemma {:induction false} OtherKeeps(lines: seq<string>, service: string, other: string)
    requires service != other
    ensures NothingToDo(RemoveService(lines, service), other) == NothingToDo(lines, other)
    ensures Settles(RemoveService(lines, service), other) == Settles(lines, other)
    decreases |lines|
  {
    hide Opens, NonEndpoints, HasEndpoint, InRun, RunLength, RemoveService, Settles, NothingToDo, AllInRun,
         StartsPlain, NoOpener, RemoveNext;
    if lines == [] {
      NothingAtAll(service);
    } else {
      RemoveIs(lines, service);
      var hd, run, rest := Runs(lines);
      var t := run + rest;
      assert lines == [hd] + t;
      if Opens(hd, service) {
        RemoveOwn(hd, run, rest, service, {});
        OtherSkips(hd, run, service, other);
        Skips([hd] + run, rest, other);
        Skips(KeptOf(hd, run), rest, other);
      } else if Opens(hd, other) {
        OtherSkips(hd, run, other, service);
        RemoveSkips([hd] + run, rest, service, {});
        RemoveIs(rest, service);
        RemoveStartsPlain(rest, service, {});
        AtOpener(hd, run, rest, other);
        AtOpener(hd, run, RemoveService(rest, service), other);
        OtherKeeps(rest, service, other);
      } else {
        OneSkips(hd, t, service);
        OneSkips(hd, t, other);
        RemoveSkips([hd], t, service, {});
        RemoveIs(t, service);
        OneSkips(hd, RemoveService(t, service), other);
        OtherKeeps(t, service, other);
      }
    }
  }

  // ---------------------------------------------------------------------
  // The three services together
  // ---------------------------------------------------------------------

  /** After the removal of all three nothing is to be done exactly if one removal of
      each is enough. */
  lemma {:induction false} RemoveAllSettles(lines: seq<string>)
    ensures AllNothingToDo(EditLines(lines, None)) <==> AllSettle(lines)
  {
    hide NothingToDo, Settles, RemoveService, ServiceName;
    Names();
    var l1 := RemoveService(lines, A);
    var l2 := RemoveService(l1, B);
    RemoveSettles(lines, A);
    RemoveSettles(l1, B);
    RemoveSettles(l2, C);
    OtherKeeps(l1, B, A);
    OtherKeeps(l2, C, A);
    OtherKeeps(l2, C, B);
    OtherKeeps(lines, A, B);
    OtherKeeps(lines, A, C);
    OtherKeeps(l1, B, C);
  }

  /** The removal of all three changes the number of lines that are not blank, or
      nothing. */
  lemma {:induction false} RemoveAllShrinks(lines: seq<string>)
    ensures NonBlank(EditLines(lines, None)) == NonBlank(lines) <==> AllNothingToDo(lines)
    ensures AllNothingToDo(lines) ==> EditLines(lines, None) == lines
  {
    hide NothingToDo, RemoveService, NonBlank, ServiceName;
    var l1 := RemoveService(lines, A);
    var l2 := RemoveService(l1, B);
    RemoveShrinks(lines, A);
    RemoveShrinks(l1, B);
    RemoveShrinks(l2, C);
  }

  /** Where nothing is to be done one removal is enough. */
  lemma {:induction false} NothingSettles(lines: seq<string>)
    requires AllNothingToDo(lines)
    ensures AllSettle(lines)
  {
    hide AllNothingToDo, AllSettle, EditLines;
    RemoveAllShrinks(lines);
    RemoveAllSettles(lines);
  }

  // ---------------------------------------------------------------------
  // Line breaks do not matter
  // ---------------------------------------------------------------------

  lemma {:induction false} SameRunLength(cs: seq<string>, ds: seq<string>)
    requires SameReads(cs, ds)
    ensures RunLength(cs) == RunLength(ds)
  {
    hide Trim, IsIndented, InRun;
    if cs != [] {
      SameEndpointLine(cs[0], ds[0], "");
      SameRunLength(cs[1..], ds[1..]);
    }
  }

  lemma {:induction false} SameEndpoints(cs: seq<string>, ds: seq<string>)
    requires SameReads(cs, ds)
    ensures HasEndpoint(cs) == HasEndpoint(ds)
  {
    hide Trim, IsIndented, IsEndpointLine;
    forall k | 0 <= k < |cs| ensures IsEndpointLine(cs[k]) == IsEndpointLine(ds[k]) { SameEndpointLine(cs[k], ds[k], ""); }
  }

  lemma {:induction false} SameNothing(cs: seq<string>, ds: seq<string>, service: string)
    requires SameReads(cs, ds)
    ensures NothingToDo(cs, service) == NothingToDo(ds, service)
  {
    hide Trim, IsIndented, Opens, HasEndpoint, RunLength;
    if cs != [] {
      SameEndpointLine(cs[0], ds[0], service);
      assert SameReads(cs[1..], ds[1..]);
      if Opens(cs[0], service) {
        SameRunLength(cs[1..], ds[1..]);
        var n := 1 + RunLength(cs[1..]);
        SameEndpoints(cs[1..n], ds[1..n]);
      } else {
        SameNothing(cs[1..], ds[1..], service);
      }
    }
  }

  lemma {:induction false} BlankLast(cs: seq<string>, c: string, service: string)
    requires Trim(c) == ""
    ensures NothingToDo(cs + [c], service) == NothingToDo(cs, service)
  {
    hide Trim, HasEndpoint, RunLength, IsIndented, KeyValue;
    if cs == [] {
      EmptyKey();
      assert [c][1..] == [];
    } else {
      assert (cs + [c])[1..] == cs[1..] + [c];
      if Opens(cs[0], service) {
        BlankRun(cs[1..], c);
        var n := 1 + RunLength(cs[1..]);
        assert (cs + [c])[1..n] == cs[1..n];
      } else {
        BlankLast(cs[1..], c, service);
      }
    }
  }

  lemma {:induction false} BlankRun(cs: seq<string>, c: string)
    requires Trim(c) == ""
    ensures RunLength(cs + [c]) == RunLength(cs)
  {
    hide Trim;
    if cs == [] {
      assert cs + [c] == [c];
    } else {
      assert (cs + [c])[1..] == cs[1..] + [c];
      BlankRun(cs[1..], c);
    }
  }

  /** Replacing the line breaks at the end by another changes neither what is to be
      done nor the number of lines that are not blank. */
  lemma {:induction false} AddBreakReads(s: string, b: char)
    requires IsLineBreak(b)
    ensures AllNothingToDo(Chunks(s + [b])) == AllNothingToDo(Chunks(s))
    ensures NonBlank(Chunks(s + [b])) == NonBlank(Chunks(s))
  {
    hide Chunks, Trim, EndsLine, NothingToDo, NonBlank, SameReads;
    ChunksAddBreak(s, b);
    var cs := Chunks(s);
    if EndsLine(s) {
      TrimBreak(b);
      BlankLast(cs, [b], A);
      BlankLast(cs, [b], B);
      BlankLast(cs, [b], C);
      NonBlankConcat(cs, [[b]]);
      BlankCount([b]);
    } else {
      var init, last := cs[..|cs| - 1], cs[|cs| - 1];
      assert cs == init + [last];
      SameReadsLast(init, last, b);
      var ds := init + [last + [b]];
      SameNothing(ds, cs, A);
      SameNothing(ds, cs, B);
      SameNothing(ds, cs, C);
      SameNonBlank(ds, cs);
    }
  }

  lemma {:induction false} BlankCount(c: string)
    requires Trim(c) == ""
    ensures NonBlank([c]) == 0
  {
    hide Trim;
    assert [c][1..] == [];
  }

  lemma {:induction false} SameNonBlank(cs: seq<string>, ds: seq<string>)
    requires SameReads(cs, ds)
    ensures NonBlank(cs) == NonBlank(ds)
  {
    hide Trim, IsIndented;
    if cs != [] {
      assert Trim(cs[0]) == Trim(ds[0]);
      assert SameReads(cs[1..], ds[1..]);
      SameNonBlank(cs[1..], ds[1..]);
    }
  }

  lemma {:induction false} TrimBreaksReads(s: string)
    ensures AllNothingToDo(Chunks(TrimBreaks(s))) == AllNothingToDo(Chunks(s))
    ensures NonBlank(Chunks(TrimBreaks(s))) == NonBlank(Chunks(s))
  {
    hide Chunks, AllNothingToDo, NonBlank;
    if s != "" && IsLineBreak(s[|s| - 1]) {
      TrimBreaksReads(s[..|s| - 1]);
      AddBreakReads(s[..|s| - 1], s[|s| - 1]);
      assert s == s[..|s| - 1] + [s[|s| - 1]];
    }
  }

  /** A body that is returned as it is has nothing to be done in it. */
  lemma {:induction false} ReturnedBody(body: string)
    requires Chunks(Flatten(EditLines(Chunks(EndedLine(body)), None))) == EditLines(Chunks(EndedLine(body)), None)
    ensures EditBody(body, None) == body <==> AllNothingToDo(Chunks(EndedLine(body)))
  {
    hide Chunks, EditLines, Flatten, TrimBreaks, AllNothingToDo, NonBlank;
    var lines := Chunks(EndedLine(body));
    var edited := Flatten(EditLines(lines, None));
    RemoveAllShrinks(lines);
    if EditBody(body, None) == body {
      TrimBreaksReads(edited);
      TrimBreaksReads(body);
      if !EndsLine(body) { AddBreakReads(body, '\n'); }
    }
    if AllNothingToDo(lines) {
      StableBody(body, None);
    }
  }
}

/** Setting an endpoint a second time changes nothing. */
module ServicesStable {
  import opened Text
  import opened Sections
  import opened AwsParser
  import opened ServicesEditor

  // ---------------------------------------------------------------------
  // A sub-section the edit would not touch
  // ---------------------------------------------------------------------

  /** An endpoint line as the edit writes it. */
  ghost predicate IsSetLine(l: string, url: string) {
    exists indent, end :: IsSetLineWith(l, url, indent, end)
  }

  predicate IsSetLineWith(l: string, url: string, indent: string, end: string) {
    && AllWhitespace(indent) && (end == "\n" || end == "\r\n")
    && l == indent + EndpointText(url) + end
  }

  /** The first endpoint of the run is already the one to set. */
  ghost predicate RunSet(run: seq<string>, url: string) {
    run != [] && if IsEndpointLine(run[0]) then IsSetLine(run[0], url) else RunSet(run[1..], url)
  }

  /** Setting this service has nothing left to do. */
  ghost predicate Done(lines: seq<string>, service: string, url: string) {
    exists pre, hd, run, post :: SplitAt(lines, service, pre, hd, run, post) && RunSet(run, url)
  }

  /** The value does not end in a carriage return, which the rewrite would take
      for part of the line break. */
  predicate GoodUrl(url: string) {
    '\n' !in url && (url != "" ==> url[|url| - 1] != '\r')
  }

  lemma {:induction false} EndpointTextEnds(url: string)
    requires GoodUrl(url)
    ensures var t := EndpointText(url);
            t != "" && t[0] == 'e' && t[|t| - 1] != '\r' && t[|t| - 1] != '\n'
  {
    var t := EndpointText(url);
    assert t[|t| - 1] == if url == "" then ' ' else url[|url| - 1];
  }

  lemma {:induction false} TrimStartNone(s: string)
    requires s != "" && s[0] == 'e'
    ensures TrimStart(s) == s
  {
  }

  lemma {:induction false} RewriteSetLine(l: string, url: string, indent: string, end: string)
    requires IsSetLineWith(l, url, indent, end) && GoodUrl(url)
    ensures RewriteLine(l, url) == l
  {
    hide TrimStart, EndpointText;
    var t := EndpointText(url);
    var m := t + end;
    EndpointTextEnds(url);
    ConcatAssoc(indent, t, end);
    TrimStartSkips(indent, m);
    TrimStartNone(m);
    assert l[..|l| - |m|] == indent;
    if end == "\n" {
      assert l[|l| - 2] == t[|t| - 1];
    } else {
      assert l[|l| - 2..] == "\r\n";
    }
  }

  lemma {:induction false} SetRunStable(run: seq<string>, url: string)
    requires RunSet(run, url) && GoodUrl(url)
    ensures SetRun(run, url) == run
  {
    hide IsEndpointLine, RewriteLine, GoodUrl, IsSetLineWith;
    if IsEndpointLine(run[0]) {
      var indent, end :| IsSetLineWith(run[0], url, indent, end);
      RewriteSetLine(run[0], url, indent, end);
    } else {
      SetRunStable(run[1..], url);
    }
  }

  lemma {:induction false} RewriteIsSetLine(l: string, url: string)
    ensures IsSetLine(RewriteLine(l, url), url)
  {
    hide IsWhitespace;
    var a := TrimStartSplit(l);
    var n := |l| - |TrimStart(l)|;
    assert l[..n] == a;
    var end := if |l| >= 2 && l[|l| - 2..] == "\r\n" then "\r\n" else "\n";
    assert IsSetLineWith(RewriteLine(l, url), url, a, end);
  }

  lemma {:induction false} SetRunIsSet(run: seq<string>, url: string)
    requires AllInRun(run)
    ensures RunSet(SetRun(run, url), url)
  {
    hide IsEndpointLine, RewriteLine, NewEndpointLine, InRun, IsSetLine;
    if run == [] {
      NewLineReads(url);
      NewIsSetLine(url);
    } else if IsEndpointLine(run[0]) {
      assert InRun(run[0]);
      RewriteRunLine(run[0], url);
      RewriteIsSetLine(run[0], url);
    } else {
      SetRunIsSet(run[1..], url);
      assert ([run[0]] + SetRun(run[1..], url))[1..] == SetRun(run[1..], url);
    }
  }

  lemma {:induction false} RewriteRunLine(l: string, url: string)
    requires InRun(l)
    ensures IsEndpointLine(RewriteLine(l, url))
  {
    hide IsEndpointLine, RewriteLine;
    RewriteReads(l, url);
  }

  lemma {:induction false} NewIsSetLine(url: string)
    ensures IsSetLine(NewEndpointLine(url), url)
  {
    assert IsSetLineWith(NewEndpointLine(url), url, "  ", "\n");
  }

  /** Where an edit has nothing left to do it does nothing. */
  lemma {:induction false} Rejoin(lines: seq<string>, pre: seq<string>, hd: string, run: seq<string>,
          post: seq<string>)
    requires lines == pre + [hd] + run + post
    ensures lines[..|pre| + 1] + run + post == lines && pre + ([hd] + run) + post == lines
  {
    assert lines[..|pre| + 1] == pre + [hd];
  }

  lemma {:induction false} DoneIsStable(lines: seq<string>, service: string, url: string)
    requires Done(lines, service, url) && GoodUrl(url)
    ensures SetService(lines, service, url) == lines
  {
    hide Opens, InRun, OpenerIndex, RunLength, SetRun, GoodUrl, RunSet, NoOpener;
    var pre, hd, run, post := DoneSplit(lines, service, url);
    SplitPlace(lines, service, pre, hd, run, post);
    SetRunStable(run, url);
    Rejoin(lines, pre, hd, run, post);
  }

  // ---------------------------------------------------------------------
  // After an edit there is nothing left to do
  // ---------------------------------------------------------------------

  lemma {:induction false} DoneBySplit(lines: seq<string>, service: string, url: string,
                                       pre: seq<string>, hd: string, run: seq<string>, post: seq<string>)
    requires SplitAt(lines, service, pre, hd, run, post) && RunSet(run, url)
    ensures Done(lines, service, url)
  {
  }

  lemma {:induction false} SetFoundIsDone(lines: seq<string>, service: string, url: string)
    requires ServiceName(service) && OpenerIndex(lines, service) < |lines|
    ensures Done(SetService(lines, service, url), service, url)
  {
    hide Opens, InRun, OpenerIndex, RunLength, SetRun, RunSet, ServiceName, Trim, Done;
    var pre, hd, run, post := SplitLines(lines, service);
    SplitPlace(lines, service, pre, hd, run, post);
    SetRunReads(run, service, url);
    SetRunIsSet(run, url);
    var l := SetService(lines, service, url);
    assert l == pre + [hd] + SetRun(run, url) + post;
    DoneBySplit(l, service, url, pre, hd, SetRun(run, url), post);
  }

  lemma {:induction false} SetAbsentIs(lines: seq<string>, service: string, url: string, n: nat)
    requires OpenerIndex(lines, service) == |lines| && n == ContentLength(lines)
    ensures SetService(lines, service, url) == lines[..n] + [service + " =\n"] + [NewEndpointLine(url)] + lines[n..]
  {
    hide OpenerIndex, ContentLength, NewEndpointLine;
    assert NewService(service, url) == [service + " =\n"] + [NewEndpointLine(url)];
    ConcatAssoc(lines[..n], [service + " =\n"], [NewEndpointLine(url)]);
  }

  lemma {:induction false} SetAbsentIsDone(lines: seq<string>, service: string, url: string)
    requires ServiceName(service) && OpenerIndex(lines, service) == |lines|
    ensures Done(SetService(lines, service, url), service, url)
  {
    hide Opens, InRun, OpenerIndex, RunLength, RunSet, ServiceName, Trim, ContentLength, NewEndpointLine, Done,
         SetService, IsEndpointLine, LineKeyValue, IsBracket;
    var n := ContentLength(lines);
    OpenerAt(lines, service);
    assert lines[..|lines|] == lines;
    NewOpenerReads(service);
    NewLineReads(url);
    ContentAt(lines);
    var hd, run := service + " =\n", [NewEndpointLine(url)];
    var l := SetService(lines, service, url);
    SetAbsentIs(lines, service, url, n);
    assert n < |lines| ==> Trim(lines[n]) == "" && lines[n..][0] == lines[n];
    BlankNotInRun(lines[n..]);
    NewRunSet(url);
    DoneBySplit(l, service, url, lines[..n], hd, run, lines[n..]);
  }

  lemma {:induction false} SetIsDone(lines: seq<string>, service: string, url: string)
    requires ServiceName(service)
    ensures Done(SetService(lines, service, url), service, url)
  {
    hide Done, SetService, ServiceName;
    if OpenerIndex(lines, service) < |lines| {
      SetFoundIsDone(lines, service, url);
    } else {
      SetAbsentIsDone(lines, service, url);
    }
  }

  lemma {:induction false} BlankNotInRun(lines: seq<string>)
    requires lines != [] ==> Trim(lines[0]) == ""
    ensures lines != [] ==> !InRun(lines[0])
  {
  }

  lemma {:induction false} NewRunSet(url: string)
    ensures RunSet([NewEndpointLine(url)], url)
  {
    hide NewEndpointLine, IsEndpointLine;
    NewLineReads(url);
    NewIsSetLine(url);
  }

  lemma {:induction false} SplitUnique(lines: seq<string>, service: string, p: seq<string>, h: string,
          r: seq<string>, q: seq<string>,
                                       p': seq<string>, h': string, r': seq<string>, q': seq<string>)
    requires SplitAt(lines, service, p, h, r, q) && SplitAt(lines, service, p', h', r', q')
    ensures p == p' && h == h' && r == r' && q == q'
  {
    hide SplitAt, OpenerIndex, RunLength;
    SplitPlace(lines, service, p, h, r, q);
    SplitPlace(lines, service, p', h', r', q');
  }

  /** Setting one service leaves a finished one finished. */
  lemma {:induction false} DoneBeside(p: seq<string>, h: string, r: seq<string>, rest: seq<string>, r': seq<string>,
                                      service: string, other: string, url: string)
    requires service != other && SplitAt(p + [h] + r + rest, service, p, h, r, rest) && AllInRun(r')
    requires Done(p + [h] + r + rest, other, url)
    ensures Done(p + [h] + r' + rest, other, url)
  {
    hide Opens, InRun, OpenerIndex, RunLength, RunSet, NoOpener, Done;
    OtherOpener(h, service, other);
    if OpenerIndex(p, other) < |p| {
      DoneInPre(p, h, r, rest, r', service, other, url);
    } else {
      DoneInRest(p, h, r, rest, r', service, other, url);
    }
  }

  lemma {:induction false} NoOpenerAround(p: seq<string>, h: string, r: seq<string>, rest: seq<string>,
          service: string)
    requires NoOpener(p, service) && NoOpener(rest, service) && !Opens(h, service) && AllInRun(r)
    ensures NoOpener(p + [h] + r + rest, service)
  {
    hide Opens, InRun;
    RunNoOpener(r, service);
  }

  lemma {:induction false} DoneRun(lines: seq<string>, service: string, url: string,
                                   p: seq<string>, h: string, r: seq<string>, q: seq<string>)
    requires SplitAt(lines, service, p, h, r, q) && Done(lines, service, url)
    ensures RunSet(r, url)
  {
    hide Opens, InRun, RunSet;
    var p', h', r', q' := DoneSplit(lines, service, url);
    SplitUnique(lines, service, p, h, r, q, p', h', r', q');
  }

  lemma {:induction false} DoneInPre(p: seq<string>, h: string, r: seq<string>, rest: seq<string>, r': seq<string>,
                                     service: string, other: string, url: string)
    requires service != other && SplitAt(p + [h] + r + rest, service, p, h, r, rest)
    requires OpenerIndex(p, other) < |p| && Done(p + [h] + r + rest, other, url)
    ensures Done(p + [h] + r' + rest, other, url)
  {
    hide Opens, InRun, OpenerIndex, RunLength, RunSet, NoOpener, Done;
    OtherOpener(h, service, other);
    var p2, h2, r2, q2 := SplitLines(p, other);
    var tail, tail' := q2 + [h] + r + rest, q2 + [h] + r' + rest;
    assert p + [h] + r + rest == p2 + [h2] + r2 + tail;
    DoneRun(p2 + [h2] + r2 + tail, other, url, p2, h2, r2, tail);
    assert p + [h] + r' + rest == p2 + [h2] + r2 + tail';
    DoneBySplit(p2 + [h2] + r2 + tail', other, url, p2, h2, r2, tail');
  }

  lemma {:induction false} DoneInRest(p: seq<string>, h: string, r: seq<string>, rest: seq<string>, r': seq<string>,
                                      service: string, other: string, url: string)
    requires service != other && SplitAt(p + [h] + r + rest, service, p, h, r, rest) && AllInRun(r')
    requires OpenerIndex(p, other) == |p| && Done(p + [h] + r + rest, other, url)
    ensures Done(p + [h] + r' + rest, other, url)
  {
    hide Opens, InRun, OpenerIndex, RunLength, RunSet, Done, NoOpener;
    OtherOpener(h, service, other);
    OpenerAt(p, other);
    OpenerAt(rest, other);
    assert p[..|p|] == p && rest[..|rest|] == rest;
    if OpenerIndex(rest, other) == |rest| {
      NoOpenerAround(p, h, r, rest, other);
      var p1, h1, r1, q1 := DoneSplit(p + [h] + r + rest, other, url);
      SplitHasOpener(p + [h] + r + rest, other, p1, h1, r1, q1);
    } else {
      var p2, h2, r2, q2 := SplitLines(rest, other);
      SplitStart(rest, other, p2, h2, r2, q2);
      NoOpenerAround(p, h, r, p2, other);
      NoOpenerAround(p, h, r', p2, other);
      var a, b := p + [h] + r + p2, p + [h] + r' + p2;
      assert p + [h] + r + rest == a + [h2] + r2 + q2;
      DoneRun(a + [h2] + r2 + q2, other, url, a, h2, r2, q2);
      assert p + [h] + r' + rest == b + [h2] + r2 + q2;
      DoneBySplit(b + [h2] + r2 + q2, other, url, b, h2, r2, q2);
    }
  }

  lemma {:induction false} SplitStart(lines: seq<string>, service: string, p: seq<string>, h: string, r: seq<string>,
          q: seq<string>)
    requires SplitAt(lines, service, p, h, r, q)
    ensures NoOpener(p, service)
  {
  }

  lemma {:induction false} SplitHasOpener(lines: seq<string>, service: string, p: seq<string>, h: string,
          r: seq<string>, q: seq<string>)
    requires SplitAt(lines, service, p, h, r, q)
    ensures !NoOpener(lines, service)
  {
    hide Opens, InRun;
    assert lines[|p|] == h;
  }

  lemma {:induction false} DoneInsert(lines: seq<string>, service: string, other: string, url: string)
    requires ServiceName(service) && service != other && OpenerIndex(lines, service) == |lines|
    requires Done(lines, other, url)
    ensures Done(SetService(lines, service, url), other, url)
  {
    hide Opens, InRun, OpenerIndex, RunLength, RunSet, ServiceName, Trim, ContentLength, NewEndpointLine, Done;
    var pre, hd, run, post := DoneSplit(lines, other, url);
    SplitPlace(lines, other, pre, hd, run, post);
    var n, e := ContentLength(lines), |pre| + 1 + |run|;
    ContentAt(lines);
    var last := lines[e - 1];
    SplitNonBlank(lines, other, pre, hd, run, post);
    assert n >= e;
    NewOpenerReads(service);
    OtherOpener(service + " =\n", service, other);
    var post' := lines[e..n] + NewService(service, url) + lines[n..];
    assert lines[..n] == pre + [hd] + run + lines[e..n];
    assert SetService(lines, service, url) == pre + [hd] + run + post';
    assert n > e ==> post'[0] == post[0];
    DoneBySplit(pre + [hd] + run + post', other, url, pre, hd, run, post');
  }

  lemma {:induction false} DoneSplit(lines: seq<string>, service: string, url: string)
    returns (pre: seq<string>, hd: string, run: seq<string>, post: seq<string>)
    requires Done(lines, service, url)
    ensures SplitAt(lines, service, pre, hd, run, post) && RunSet(run, url)
  {
    pre, hd, run, post :| SplitAt(lines, service, pre, hd, run, post) && RunSet(run, url);
  }

  lemma {:induction false} SplitNonBlank(lines: seq<string>, service: string, pre: seq<string>, hd: string,
          run: seq<string>, post: seq<string>)
    requires SplitAt(lines, service, pre, hd, run, post)
    ensures |pre| + |run| < |lines| && Trim(lines[|pre| + |run|]) != ""
  {
    hide Trim, KeyValue;
    var last := lines[|pre| + |run|];
    if run == [] {
      assert last == hd;
      assert KeyValue("") == None by { EmptyKey(); }
    } else {
      assert last == run[|run| - 1];
      assert InRun(run[|run| - 1]);
    }
  }

  lemma {:induction false} DoneKept(lines: seq<string>, service: string, other: string, url: string)
    requires ServiceName(service) && service != other && Done(lines, other, url)
    ensures Done(SetService(lines, service, url), other, url)
  {
    hide Opens, InRun, OpenerIndex, RunLength, SetRun, ServiceName, Done, Trim;
    if OpenerIndex(lines, service) < |lines| {
      var p, h, r, rest := SplitLines(lines, service);
      SplitPlace(lines, service, p, h, r, rest);
      SetRunReads(r, service, url);
      assert lines[..|p| + 1] == p + [h];
      assert SetService(lines, service, url) == p + [h] + SetRun(r, url) + rest;
      DoneBeside(p, h, r, rest, SetRun(r, url), service, other, url);
    } else {
      DoneInsert(lines, service, other, url);
    }
  }

  // ---------------------------------------------------------------------
  // The three edits together
  // ---------------------------------------------------------------------

  ghost predicate AllDone(lines: seq<string>, url: string) {
    Done(lines, "secrets_manager", url) && Done(lines, "secrets-manager", url) && Done(lines, "ssm", url)
  }

  /** After all three services are set nothing is left to do for any. */
  lemma {:induction false} EditLinesDone(lines: seq<string>, url: string)
    ensures AllDone(EditLines(lines, Some(url)), url)
  {
    hide Done, SetService, ServiceName;
    NamesAreServices();
    var a, b, c := "secrets_manager", "secrets-manager", "ssm";
    assert a != b && a != c && b != c by { assert a[7] != b[7] && |a| != |c|; }
    var l1 := SetService(lines, a, url);
    var l2 := SetService(l1, b, url);
    SetIsDone(lines, a, url);
    SetIsDone(l1, b, url);
    SetIsDone(l2, c, url);
    DoneKept(l1, b, a, url);
    DoneKept(l2, c, a, url);
    DoneKept(l2, c, b, url);
  }

  lemma {:induction false} AllDoneStable(lines: seq<string>, url: string)
    requires AllDone(lines, url) && GoodUrl(url)
    ensures EditLines(lines, Some(url)) == lines
  {
    hide Done, SetService, GoodUrl;
    DoneIsStable(lines, "secrets_manager", url);
    DoneIsStable(lines, "secrets-manager", url);
    DoneIsStable(lines, "ssm", url);
  }

  // ---------------------------------------------------------------------
  // A finished body stays finished when its last line breaks are trimmed
  // ---------------------------------------------------------------------

  lemma {:induction false} TrimBreaksConcat(x: string, y: string)
    ensures TrimBreaks(x + y) == if TrimBreaks(y) == "" then TrimBreaks(x) else x + TrimBreaks(y)
  {
    if y == "" {
      assert x + y == x;
    } else {
      var init, last := y[..|y| - 1], y[|y| - 1];
      assert (x + y)[..|x + y| - 1] == x + init;
      if IsLineBreak(last) { TrimBreaksConcat(x, init); }
    }
  }

  lemma {:induction false} TrimBreaksKeepsTrim(l: string)
    ensures Trim(TrimBreaks(l) + "\n") == Trim(l)
    ensures TrimBreaks(l) != "" ==> IsIndented(TrimBreaks(l) + "\n") == IsIndented(l)
    ensures TrimBreaks(l) == "" ==> Trim(l) == ""
  {
    hide Trim;
    var t := TrimBreaks(l);
    var b := l[|t|..];
    assert AllWhitespace(b);
    TrimPadded("", t, "\n");
    assert "" + t + "\n" == t + "\n";
    TrimPadded("", t, b);
    assert l == "" + t + b;
    if t == "" {
      TrimSandwich(l, "", "");
      assert l + "" + "" == l;
    }
  }

  /** The lines of a text whose last line breaks are replaced by one line feed. */
  lemma {:induction false} TrimmedLines(lines: seq<string>) returns (k: nat)
    requires AllTerminated(lines) && TrimBreaks(Flatten(lines)) != ""
    ensures k < |lines| && TrimBreaks(lines[k]) != ""
    ensures forall m | k < m < |lines| :: TrimBreaks(lines[m]) == ""
    ensures TrimBreaks(Flatten(lines)) == Flatten(lines[..k]) + TrimBreaks(lines[k])
  {
    hide TrimBreaks, Terminated;
    assert lines != [] by { if lines == [] { NoBreaks(); } }
    var init, last := lines[..|lines| - 1], lines[|lines| - 1];
    assert lines == init + [last];
    FlattenLast(init, last);
    TrimBreaksConcat(Flatten(init), last);
    if TrimBreaks(last) == "" {
      k := TrimmedLines(init);
      assert init[..k] == lines[..k];
    } else {
      k := |lines| - 1;
    }
  }

  lemma {:induction false} NoBreaks()
    ensures TrimBreaks(Flatten([])) == ""
  {
  }

  lemma {:induction false} TrimmedChunks(lines: seq<string>, k: nat)
    requires AllTerminated(lines) && k < |lines| && TrimBreaks(lines[k]) != ""
    ensures Chunks(Flatten(lines[..k]) + TrimBreaks(lines[k]) + "\n") == lines[..k] + [TrimBreaks(lines[k]) + "\n"]
  {
    hide Chunks, TrimBreaks;
    var l' := TrimBreaks(lines[k]) + "\n";
    TrimmedTerminated(lines[k]);
    FlattenLast(lines[..k], l');
    ConcatAssoc(Flatten(lines[..k]), TrimBreaks(lines[k]), "\n");
    ChunksOfFlatten(lines[..k] + [l']);
  }

  lemma {:induction false} TrimmedTerminated(l: string)
    requires Terminated(l)
    ensures Terminated(TrimBreaks(l) + "\n")
  {
    var t := TrimBreaks(l);
    assert t != "" ==> t[|t| - 1] == l[|t| - 1];
  }

  lemma {:induction false} SetLineTrimmed(l: string, url: string)
    requires IsSetLine(l, url) && GoodUrl(url)
    ensures IsSetLine(TrimBreaks(l) + "\n", url)
  {
    hide IsWhitespace;
    var indent, end :| IsSetLineWith(l, url, indent, end);
    var m := EndpointText(url);
    assert end == "\n" || end == "\r\n";
    BreaksTrimmed(end);
    TrimBreaksConcat(indent + m, end);
    assert m[|m| - 1] != '\n' && m[|m| - 1] != '\r';
    assert (indent + m)[|indent + m| - 1] == m[|m| - 1];
    assert TrimBreaks(indent + m) == indent + m;
    assert IsSetLineWith(indent + m + "\n", url, indent, "\n");
  }

  lemma {:induction false} BreaksTrimmed(end: string)
    requires AllLineBreaks(end)
    ensures TrimBreaks(end) == ""
  {
    if end != "" { BreaksTrimmed(end[..|end| - 1]); }
  }

  lemma {:induction false} SameEndpointLine(c: string, d: string, service: string)
    requires Trim(c) == Trim(d) && IsIndented(c) == IsIndented(d)
    ensures IsEndpointLine(c) == IsEndpointLine(d) && Opens(c, service) == Opens(d, service) && InRun(c) == InRun(d)
  {
    hide Trim, IsIndented, KeyValue;
  }

  lemma {:induction false} RunSetTrimmed(init: seq<string>, l: string, l': string, url: string)
    requires RunSet(init + [l], url) && IsEndpointLine(l) == IsEndpointLine(l')
    requires IsSetLine(l, url) ==> IsSetLine(l', url)
    ensures RunSet(init + [l'], url)
    decreases |init|
  {
    hide IsEndpointLine, IsSetLine;
    if init == [] {
      assert (init + [l])[1..] == [] && (init + [l'])[1..] == [];
    } else {
      assert (init + [l])[1..] == init[1..] + [l] && (init + [l'])[1..] == init[1..] + [l'];
      assert (init + [l])[0] == init[0] == (init + [l'])[0];
      if !IsEndpointLine(init[0]) {
        RunSetTrimmed(init[1..], l, l', url);
      }
    }
  }

  lemma {:induction false} DoneTrimmed(lines: seq<string>, k: nat, l': string, service: string, url: string)
    requires k < |lines| && (forall m | k < m < |lines| :: Trim(lines[m]) == "")
    requires Trim(l') == Trim(lines[k]) && IsIndented(l') == IsIndented(lines[k])
    requires IsSetLine(lines[k], url) ==> IsSetLine(l', url)
    requires Done(lines, service, url)
    ensures Done(lines[..k] + [l'], service, url)
  {
    hide Trim, Opens, InRun, IsIndented, RunSet, IsSetLine;
    SameEndpointLine(l', lines[k], service);
    var pre, hd, run, post := DoneSplit(lines, service, url);
    SplitNonBlank(lines, service, pre, hd, run, post);
    DoneTrimmedSplit(lines, k, l', service, url, pre, hd, run, post);
  }

  lemma {:induction false} DoneTrimmedSplit(lines: seq<string>, k: nat, l': string, service: string, url: string,
                                            pre: seq<string>, hd: string, run: seq<string>, post: seq<string>)
    requires SplitAt(lines, service, pre, hd, run, post) && RunSet(run, url)
    requires |pre| + |run| <= k < |lines|
    requires IsEndpointLine(l') == IsEndpointLine(lines[k]) && InRun(l') == InRun(lines[k])
    requires IsSetLine(lines[k], url) ==> IsSetLine(l', url)
    ensures Done(lines[..k] + [l'], service, url)
  {
    hide Trim, Opens, InRun, IsIndented, RunSet, IsSetLine, IsEndpointLine, Done;
    var e := |pre| + 1 + |run|;
    var lines' := lines[..k] + [l'];
    if k >= e {
      var post' := post[..k - e] + [l'];
      assert lines[..k] == pre + [hd] + run + post[..k - e];
      assert lines' == pre + [hd] + run + post';
      assert post'[0] == (if k == e then l' else post[0]);
      assert k == e ==> lines[k] == post[0];
      DoneBySplit(lines', service, url, pre, hd, run, post');
    } else {
      RunNotEmpty(run, url);
      var init := run[..|run| - 1];
      assert run == init + [lines[k]];
      RunSetTrimmed(init, lines[k], l', url);
      assert lines[..k] == pre + [hd] + init;
      assert lines' == pre + [hd] + (init + [l']) + [];
      DoneBySplit(lines', service, url, pre, hd, init + [l'], []);
    }
  }

  lemma {:induction false} RunNotEmpty(run: seq<string>, url: string)
    requires RunSet(run, url)
    ensures run != []
  {
  }

  /** The body `append_section` writes is as finished as the one it was given. */
  lemma {:induction false} TrimmedBodyDone(lines: seq<string>, url: string)
    requires AllTerminated(lines) && AllDone(lines, url) && GoodUrl(url) && TrimBreaks(Flatten(lines)) != ""
    ensures AllDone(Chunks(TrimBreaks(Flatten(lines)) + "\n"), url)
  {
    hide Chunks, TrimBreaks, Done, Trim, IsIndented, GoodUrl, Flatten, Terminated, IsSetLine;
    var k := TrimmedLines(lines);
    TrimmedChunks(lines, k);
    var l' := TrimBreaks(lines[k]) + "\n";
    TrimBreaksKeepsTrim(lines[k]);
    forall m | k < m < |lines| ensures Trim(lines[m]) == "" {
      TrimBreaksKeepsTrim(lines[m]);
    }
    if IsSetLine(lines[k], url) {
      SetLineTrimmed(lines[k], url);
    }
    DoneTrimmed(lines, k, l', "secrets_manager", url);
    DoneTrimmed(lines, k, l', "secrets-manager", url);
    DoneTrimmed(lines, k, l', "ssm", url);
  }

  /** A body whose lines the edit leaves alone is returned as it is, byte for byte. */
  lemma {:induction false} StableBody(body: string, url: Option<string>)
    requires EditLines(Chunks(EndedLine(body)), url) == Chunks(EndedLine(body))
    ensures EditBody(body, url) == body
  {
    hide Chunks, EditLines, Flatten;
    FlattenChunks(EndedLine(body));
    if !EndsLine(body) {
      TrimBreaksConcat(body, "\n");
      BreaksTrimmed("\n");
    }
  }
}

/** What setting and removing the endpoint of one service does to the lines, for every
    place the service can have among them. */
module ServicesShapes {
  import opened Text
  import opened ServicesEditor
  import opened ServicesRemoval
  import opened ServicesTwice

  /** The first opener of a service, in front of its run. */
  lemma {:induction false} FirstOpener(pre: seq<string>, l: string, rest: seq<string>, service: string)
    requires NoOpener(pre, service) && Opens(l, service)
    ensures OpenerIndex(pre + [l] + rest, service) == |pre|
    decreases |pre|
  {
    hide Opens;
    var lines := pre + [l] + rest;
    if pre == [] {
      assert lines[0] == l;
    } else {
      assert lines[0] == pre[0] && lines[1..] == pre[1..] + [l] + rest;
      FirstOpener(pre[1..], l, rest, service);
    }
  }

  lemma {:induction false} NoneOpens(lines: seq<string>, service: string)
    requires NoOpener(lines, service)
    ensures OpenerIndex(lines, service) == |lines|
  {
    hide Opens;
    if lines != [] { NoneOpens(lines[1..], service); }
  }

  /** The parts around a run. */
  lemma {:induction false} Parts(pre: seq<string>, l: string, run: seq<string>, post: seq<string>, service: string)
    requires NoOpener(pre, service) && Opens(l, service) && AllInRun(run) && StartsPlain(post)
    ensures var lines := pre + [l] + run + post;
            var i := OpenerIndex(lines, service);
            && i == |pre| && RunLength(lines[i + 1..]) == |run|
            && lines[..i + 1] == pre + [l] && lines[..i] == pre && lines[i] == l
            && lines[i + 1..i + 1 + |run|] == run && lines[i + 1 + |run|..] == post
  {
    hide Opens, InRun, RunLength, OpenerIndex;
    var lines := pre + [l] + run + post;
    assert lines == pre + [l] + (run + post);
    FirstOpener(pre, l, run + post, service);
    assert lines[|pre| + 1..] == run + post;
    RunUnique(run, post);
  }

  /** A service with an endpoint: the first endpoint line of its run is rewritten, and
      everything else stays. */
  lemma {:induction false} SetRewrites(pre: seq<string>, l: string, a: seq<string>, e: string, b: seq<string>,
          post: seq<string>,
          service: string, url: string)
    requires NoOpener(pre, service) && Opens(l, service) && AllInRun(a + [e] + b) && StartsPlain(post)
    requires !HasEndpoint(a) && IsEndpointLine(e)
    ensures SetService(pre + [l] + (a + [e] + b) + post, service, url) == pre + [l] + (a + [RewriteLine(e, url)] + b) + post
  {
    hide Opens, InRun, RunLength, OpenerIndex, RewriteLine, IsEndpointLine, AllInRun, NoOpener, HasEndpoint, SetRun;
    Parts(pre, l, a + [e] + b, post, service);
    FirstRewritten(a, e, b, url);
  }

  lemma {:induction false} FirstRewritten(a: seq<string>, e: string, b: seq<string>, url: string)
    requires !HasEndpoint(a) && IsEndpointLine(e)
    ensures SetRun(a + [e] + b, url) == a + [RewriteLine(e, url)] + b
    decreases |a|
  {
    hide IsEndpointLine, RewriteLine;
    var run := a + [e] + b;
    if a == [] {
      assert run[0] == e && run[1..] == b;
    } else {
      assert run[0] == a[0] && run[1..] == a[1..] + [e] + b;
      FirstRewritten(a[1..], e, b, url);
    }
  }

  /** A rewritten line keeps its indentation and its line break. */
  lemma {:induction false} RewriteKeepsForm(line: string, url: string) returns (indent: string, end: string)
    ensures AllWhitespace(indent) && line == indent + TrimStart(line) && RewriteLine(line, url) == indent + "endpoint_url = " + url + end
    ensures end == "\r\n" || end == "\n"
    ensures end == "\r\n" <==> |line| >= 2 && line[|line| - 2..] == "\r\n"
  {
    indent := TrimStartSplit(line);
    end := if |line| >= 2 && line[|line| - 2..] == "\r\n" then "\r\n" else "\n";
    assert line[..|line| - |TrimStart(line)|] == indent;
    ConcatAssoc(indent, "endpoint_url = ", url);
  }

  /** A service without one: a line is added at the end of its run. */
  lemma {:induction false} SetAddsLine(pre: seq<string>, l: string, run: seq<string>, post: seq<string>,
          service: string, url: string)
    requires NoOpener(pre, service) && Opens(l, service) && AllInRun(run) && StartsPlain(post) && !HasEndpoint(run)
    ensures SetService(pre + [l] + run + post, service, url) == pre + [l] + (run + [NewEndpointLine(url)]) + post
  {
    hide Opens, InRun, RunLength, OpenerIndex, NewEndpointLine, IsEndpointLine, AllInRun, NoOpener, HasEndpoint,
         SetRun;
    Parts(pre, l, run, post, service);
    NoneRewritten(run, url);
  }

  lemma {:induction false} NoneRewritten(run: seq<string>, url: string)
    requires !HasEndpoint(run)
    ensures SetRun(run, url) == run + [NewEndpointLine(url)]
    decreases |run|
  {
    hide IsEndpointLine, NewEndpointLine;
    if run != [] { NoneRewritten(run[1..], url); }
  }

  /** A service that is not there: it is added in front of the blank lines at the end. */
  lemma {:induction false} SetAddsService(content: seq<string>, blanks: seq<string>, service: string, url: string)
    requires NoOpener(content + blanks, service) && (content != [] ==> Trim(content[|content| - 1]) != "")
    requires forall k | 0 <= k < |blanks| :: Trim(blanks[k]) == ""
    ensures SetService(content + blanks, service, url) == content + [service + " =\n", "  endpoint_url = " + url + "\n"] + blanks
  {
    hide Opens, OpenerIndex, NoOpener, Trim, ContentLength;
    var lines := content + blanks;
    NoneOpens(lines, service);
    ContentIs(content, blanks);
    assert lines[..|content|] == content && lines[|content|..] == blanks;
    assert "  " + ("endpoint_url = " + url) == "  endpoint_url = " + url;
    assert NewService(service, url) == [service + " =\n", "  endpoint_url = " + url + "\n"];
  }

  lemma {:induction false} ContentIs(content: seq<string>, blanks: seq<string>)
    requires content != [] ==> Trim(content[|content| - 1]) != ""
    requires forall k | 0 <= k < |blanks| :: Trim(blanks[k]) == ""
    ensures ContentLength(content + blanks) == |content|
    decreases |blanks|
  {
    hide Trim;
    var lines := content + blanks;
    if blanks == [] {
      assert lines == content;
    } else {
      assert lines[..|lines| - 1] == content + blanks[..|blanks| - 1];
      ContentIs(content, blanks[..|blanks| - 1]);
    }
  }

  /** Removing takes the endpoint lines of the first run of the service, and its opener
      exactly if nothing is left in it; nothing else goes. */
  lemma {:induction false} RemoveTakes(pre: seq<string>, l: string, run: seq<string>, post: seq<string>,
          service: string)
    requires NoOpener(pre, service) && Opens(l, service) && AllInRun(run) && StartsPlain(post)
    ensures RemoveService(pre + [l] + run + post, service)
         == if forall k | 0 <= k < |run| :: IsEndpointLine(run[k]) then pre + post else pre + ([l] + NonEndpoints(run)) + post
  {
    hide Opens, InRun, RunLength, OpenerIndex, IsEndpointLine, AllInRun, NoOpener, NonEndpoints;
    Parts(pre, l, run, post, service);
    NoneLeft(run);
    assert pre + [] + post == pre + post;
  }

  lemma {:induction false} NoneLeft(run: seq<string>)
    ensures NonEndpoints(run) == [] <==> forall k | 0 <= k < |run| :: IsEndpointLine(run[k])
    decreases |run|
  {
    hide IsEndpointLine;
    if run != [] {
      NoneLeft(run[1..]);
      if NonEndpoints(run) == [] {
        forall k | 0 <= k < |run| ensures IsEndpointLine(run[k]) {
          if k > 0 { assert run[k] == run[1..][k - 1]; }
        }
      }
    }
  }

  /** What is left of a run: each line that is no endpoint, in order. */
  lemma {:induction false} LeftInOrder(a: seq<string>, l: string, b: seq<string>)
    ensures NonEndpoints(a + [l] + b) == NonEndpoints(a) + (if IsEndpointLine(l) then [] else [l]) + NonEndpoints(b)
    decreases |a|
  {
    hide IsEndpointLine;
    var run := a + [l] + b;
    if a == [] {
      assert run[0] == l && run[1..] == b;
    } else {
      assert run[0] == a[0] && run[1..] == a[1..] + [l] + b;
      LeftInOrder(a[1..], l, b);
    }
  }

  lemma {:induction false} RemoveNothing(lines: seq<string>, service: string)
    requires NoOpener(lines, service)
    ensures RemoveService(lines, service) == lines
  {
    hide Opens, OpenerIndex, NoOpener, NonEndpoints, RunLength;
    NoneOpens(lines, service);
  }
}

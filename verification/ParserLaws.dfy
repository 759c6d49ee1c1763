/** What the parser makes of single lines: comments and blank lines mean nothing
    wherever they are, an endpoint belongs to the service opened last above it, and of
    the endpoints of a section one is reported. */
module ParserLaws {
  import opened Text
  import opened Places
  import opened AwsParser

  // ---------------------------------------------------------------------
  // Comments and blank lines
  // ---------------------------------------------------------------------

  lemma {:induction false} SkippedReads(c: string, open: Option<string>)
    requires IsSkipped(c)
    ensures !IsHeader(c) && LineKeys(c) == map[] && NextService(c, open) == open && LineEndpoints(c, open) == []
  {
  }

  /** In the body of a section. */
  lemma {:induction false} SkippedInBody(a: seq<string>, c: string, b: seq<string>, open: Option<string>)
    requires IsSkipped(c)
    ensures Keys(a + [c] + b) == Keys(a + b) && Endpoints(a + [c] + b, open) == Endpoints(a + b, open)
  {
    hide IsSkipped, LineKeys, NextService, LineEndpoints;
    var s := ServiceAfter(a, open);
    SkippedReads(c, s);
    assert ([c] + b)[1..] == b;
    assert Keys([c] + b) == LineKeys(c) + Keys(b) && map[] + Keys(b) == Keys(b);
    assert Endpoints([c] + b, s) == LineEndpoints(c, s) + Endpoints(b, NextService(c, s)) && [] + Endpoints(b, s) == Endpoints(b, s);
    ConcatAssoc(a, [c], b);
    KeysConcat(a, [c] + b);
    KeysConcat(a, b);
    EndpointsConcat(a, [c] + b, open);
    EndpointsConcat(a, b, open);
  }

  lemma {:induction false} PlainThrough(a: seq<string>, c: string, b: seq<string>)
    requires !IsHeader(c)
    ensures PlainLength(a) == |a| ==> PlainLength(a + [c] + b) == |a| + 1 + PlainLength(b) && PlainLength(a + b) == |a| + PlainLength(b)
    ensures PlainLength(a) < |a| ==> PlainLength(a + [c] + b) == PlainLength(a) && PlainLength(a + b) == PlainLength(a)
    decreases |a|
  {
    hide IsHeader;
    if a == [] {
      assert a + [c] + b == [c] + b && a + b == b && ([c] + b)[1..] == b;
    } else {
      assert (a + [c] + b)[1..] == a[1..] + [c] + b && (a + b)[1..] == a[1..] + b;
      PlainThrough(a[1..], c, b);
    }
  }

  /** Anywhere in a file. */
  lemma {:induction false} SkippedAnywhere(a: seq<string>, c: string, b: seq<string>)
    requires Trim(c) == "" || Trim(c)[0] == '#'
    ensures Doc(a + [c] + b) == Doc(a + b)
    decreases |a|, 0
  {
    hide IsHeader, Doc, Keys, Endpoints, PlainLength, Trim;
    SkippedReads(c, None);
    if a == [] {
      assert a + [c] + b == [c] + b && a + b == b;
      DocSkip(c, b);
    } else {
      var h, t := a[0], a[1..];
      var with, without := t + [c] + b, t + b;
      assert a + [c] + b == [h] + with && a + b == [h] + without;
      if IsHeader(h) {
        SkippedInSection(h, t, c, b);
      } else {
        DocSkip(h, with);
        DocSkip(h, without);
        SkippedAnywhere(t, c, b);
      }
    }
  }

  lemma {:induction false} SkippedInSection(h: string, t: seq<string>, c: string, b: seq<string>)
    requires (Trim(c) == "" || Trim(c)[0] == '#') && IsHeader(h)
    ensures Doc([h] + (t + [c] + b)) == Doc([h] + (t + b))
    decreases |t|, 1
  {
    hide Trim, IsHeader, Doc, Keys, Endpoints, PlainLength;
    SkippedReads(c, None);
    PlainThrough(t, c, b);
    var with, without := t + [c] + b, t + b;
    DocStep(h, with, PlainLength(with));
    DocStep(h, without, PlainLength(without));
    if PlainLength(t) == |t| {
      var n := PlainLength(b);
      assert with[..|t| + 1 + n] == t + [c] + b[..n] && without[..|t| + n] == t + b[..n];
      assert with[|t| + 1 + n..] == b[n..] && without[|t| + n..] == b[n..];
      SkippedInBody(t, c, b[..n], None);
    } else {
      var n := PlainLength(t);
      assert with[..n] == t[..n] && without[..n] == t[..n];
      assert with[n..] == t[n..] + [c] + b && without[n..] == t[n..] + b;
      SkippedAnywhere(t[n..], c, b);
    }
  }

  // ---------------------------------------------------------------------
  // Endpoints and the services they belong to
  // ---------------------------------------------------------------------

  /** A line with a key that is not indented. */
  predicate IsTop(c: string) {
    !IsSkipped(c) && !IsIndented(c) && KeyValue(Trim(c)).Some?
  }

  /** The service that is open at a line: looking up from it, the first line that is
      not indented and has a key opens it, if its value is empty. */
  function OpenAt(lines: seq<string>, k: nat): Option<string>
    requires k <= |lines|
  {
    if k == 0 then None
    else if IsTop(lines[k - 1]) then
      var (key, value) := KeyValue(Trim(lines[k - 1])).value;
      if value == "" then Some(key) else None
    else OpenAt(lines, k - 1)
  }

  lemma {:induction false} OpenIsService(lines: seq<string>, k: nat)
    requires k <= |lines|
    ensures OpenAt(lines, k) == ServiceAfter(lines[..k], None)
  {
    hide IsSkipped, IsIndented, KeyValue, Trim;
    if k > 0 {
      OpenIsService(lines, k - 1);
      assert lines[..k] == lines[..k - 1] + [lines[k - 1]];
      EndpointsConcat(lines[..k - 1], [lines[k - 1]], None);
      var open := ServiceAfter(lines[..k - 1], None);
      assert [lines[k - 1]][1..] == [];
      assert ServiceAfter([lines[k - 1]], open) == ServiceAfter([], NextService(lines[k - 1], open));
    }
  }

  /** The endpoint a line gives, for the service open at it. */
  function EndpointAt(lines: seq<string>, k: nat): Option<Endpoint>
    requires k < |lines|
  {
    var c := lines[k];
    if IsSkipped(c) || !IsIndented(c) || OpenAt(lines, k).None? || KeyValue(Trim(c)).None? then None else
      var (key, value) := KeyValue(Trim(c)).value;
      if key == "endpoint_url" then Some(Endpoint(OpenAt(lines, k).value, value)) else None
  }

  lemma {:induction false} EndpointIsRead(lines: seq<string>, k: nat)
    requires k < |lines|
    ensures LineEndpoints(lines[k], OpenAt(lines, k)) == match EndpointAt(lines, k) case None => [] case Some(e) => [e]
  {
    hide IsSkipped, IsIndented, KeyValue, Trim, OpenAt;
  }

  function GivesEndpoint(lines: seq<string>): nat -> bool {
    (k: nat) => k < |lines| && EndpointAt(lines, k).Some?
  }

  /** The endpoints of a section are those of its lines, in order: the `k`-th is that of
      line `at[k]`. */
  lemma {:induction false} EndpointsByLine(lines: seq<string>, n: nat) returns (at: seq<nat>)
    requires n <= |lines|
    ensures Exactly(at, n, GivesEndpoint(lines)) && |Endpoints(lines[..n], None)| == |at|
    ensures forall k | 0 <= k < |at| :: at[k] < n && EndpointAt(lines, at[k]) == Some(Endpoints(lines[..n], None)[k])
  {
    hide EndpointAt, LineEndpoints, NextService, OpenAt, Endpoints, Exactly;
    if n == 0 {
      at := [];
      NoLines();
      assert lines[..0] == [];
      ExactlyNone(GivesEndpoint(lines));
    } else {
      at := EndpointsByLine(lines, n - 1);
      OneLineMore(lines, n);
      ExactlyNext(at, n - 1, GivesEndpoint(lines));
      if EndpointAt(lines, n - 1).Some? { at := at + [n - 1]; }
    }
  }

  lemma {:induction false} NoLines()
    ensures Endpoints([], None) == []
  {
  }

  lemma {:induction false} OneLineMore(lines: seq<string>, n: nat)
    requires 0 < n <= |lines|
    ensures Endpoints(lines[..n], None)
         == Endpoints(lines[..n - 1], None) + match EndpointAt(lines, n - 1) case None => [] case Some(e) => [e]
  {
    hide EndpointAt, LineEndpoints, NextService, OpenAt;
    assert lines[..n] == lines[..n - 1] + [lines[n - 1]];
    EndpointsConcat(lines[..n - 1], [lines[n - 1]], None);
    OpenIsService(lines, n - 1);
    EndpointIsRead(lines, n - 1);
    var open := OpenAt(lines, n - 1);
    assert [lines[n - 1]][1..] == [];
    assert Endpoints([lines[n - 1]], open) == LineEndpoints(lines[n - 1], open) + Endpoints([], NextService(lines[n - 1], open));
  }

  // ---------------------------------------------------------------------
  // The endpoint that is reported
  // ---------------------------------------------------------------------

  predicate OfSecrets(e: Endpoint) {
    e.service == "secrets_manager" || e.service == "secrets-manager"
  }

  predicate OfParameters(e: Endpoint) {
    e.service == "ssm"
  }

  /** Of Secrets Manager the first one, under either spelling; if there is none, of the
      parameter store the last one; and no other service's. */
  lemma {:induction false} ReportedEndpoint(es: seq<Endpoint>) returns (i: nat)
    ensures i <= |es|
    ensures (exists k | 0 <= k < |es| :: OfSecrets(es[k])) ==>
              i < |es| && OfSecrets(es[i]) && UrlOf(es) == Some(es[i].url) && forall k | 0 <= k < i :: !OfSecrets(es[k])
    ensures (forall k | 0 <= k < |es| :: !OfSecrets(es[k])) && (exists k | 0 <= k < |es| :: OfParameters(es[k])) ==>
              i < |es| && OfParameters(es[i]) && UrlOf(es) == Some(es[i].url) && forall k | i < k < |es| :: !OfParameters(es[k])
    ensures (forall k | 0 <= k < |es| :: !OfSecrets(es[k]) && !OfParameters(es[k])) ==> UrlOf(es) == None
  {
    var m := FirstSecrets(es);
    var p := LastParameters(es);
    i := if m < |es| then m else p;
  }

  lemma {:induction false} FirstSecrets(es: seq<Endpoint>) returns (i: nat)
    ensures i <= |es| && forall k | 0 <= k < i :: !OfSecrets(es[k])
    ensures i < |es| ==> OfSecrets(es[i])
    ensures ManagerUrl(es) == if i < |es| then Some(es[i].url) else None
  {
    i := 0;
    if es != [] && !OfSecrets(es[0]) {
      var j := FirstSecrets(es[1..]);
      i := j + 1;
    }
  }

  lemma {:induction false} LastParameters(es: seq<Endpoint>) returns (i: nat)
    ensures i <= |es| && (i < |es| ==> OfParameters(es[i]) && forall k | i < k < |es| :: !OfParameters(es[k]))
    ensures i == |es| ==> forall k | 0 <= k < |es| :: !OfParameters(es[k])
    ensures SsmUrl(es) == if i < |es| then Some(es[i].url) else None
  {
    i := |es|;
    if es != [] {
      var n := |es| - 1;
      if OfParameters(es[n]) {
        i := n;
      } else {
        var j := LastParameters(es[..n]);
        if j < n { i := j; }
      }
    }
  }
}

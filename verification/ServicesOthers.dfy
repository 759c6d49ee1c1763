/** What an edit does to the services it does not manage. */
module ServicesOthers {
  import opened Text
  import opened AwsParser
  import opened ServicesEditor
  import opened ServicesRemoval

  predicate Managed(service: string) {
    service in VALUE_SOURCE_SERVICES
  }

  lemma {:induction false} ManagedAre(service: string)
    ensures Managed(service) <==> service == A || service == B || service == C
  {
    assert VALUE_SOURCE_SERVICES[0] == A && VALUE_SOURCE_SERVICES[1] == B && VALUE_SOURCE_SERVICES[2] == C;
  }

  /** No endpoint line falls to a service that is not managed: wherever the opener of a
      first sub-section goes, either no such service is open above it, or no endpoint
      line follows before the next line that opens or closes. */
  predicate NoneMoves(lines: seq<string>, open: Option<string>, seen: set<string>)
    decreases |lines|
  {
    lines == [] ||
    match FirstOpened(lines[0], seen)
    case None => NoneMoves(lines[1..], NextService(lines[0], open), seen)
    case Some(service) =>
      var n := 1 + RunLength(lines[1..]);
      if NonEndpoints(lines[1..n]) != [] then NoneMoves(lines[n..], Some(service), seen + {service})
      else
        && (open.Some? && !Managed(open.value) ==> Loose(lines[n..]) == 0)
        && NoneMoves(lines[n..], open, seen + {service})
  }

  /** Two lists give every service that is not managed the same endpoints. */
  ghost predicate SameOthers(a: seq<Endpoint>, b: seq<Endpoint>) {
    forall other | !Managed(other) :: Of(a, other) == Of(b, other)
  }

  /** The reading of a removal at a line that opens nothing for the first time. */
  lemma {:induction false} PlainOf(l: string, t: seq<string>, open: Option<string>, seen: set<string>, other: string)
    requires FirstOpened(l, seen) == None
    ensures Of(Left([l] + t, open, seen), other) == Of(LineEndpoints(l, open), other) + Of(Left(t, NextService(l, open), seen), other)
    ensures Of(Endpoints([l] + t, open), other) == Of(LineEndpoints(l, open), other) + Of(Endpoints(t, NextService(l, open)), other)
  {
    hide FirstOpened, LineEndpoints, NextService, Of;
    var lines := [l] + t;
    assert lines[1..] == t;
    OfConcat(LineEndpoints(l, open), Left(t, NextService(l, open), seen), other);
    OfConcat(LineEndpoints(l, open), Endpoints(t, NextService(l, open)), other);
  }

  /** At a first sub-section. */
  lemma {:induction false} OpenerOf(lines: seq<string>, n: nat, open: Option<string>, seen: set<string>,
          other: string)
    requires lines != [] && FirstOpened(lines[0], seen).Some? && n == 1 + RunLength(lines[1..]) && !Managed(other)
    ensures n <= |lines|
    ensures Of(Endpoints(lines, open), other) == Of(Endpoints(lines[n..], FirstOpened(lines[0], seen)), other)
    ensures Of(Endpoints(lines, open), other) == Of(Endpoints(lines[n..], None), other)
  {
    hide FirstOpened, Endpoints, ServiceAfter, Of, InRun, Opens, ServiceName, AllInRun, RunLength;
    var service := FirstOpened(lines[0], seen).value;
    var hd, run, rest := lines[0], lines[1..n], lines[n..];
    FirstOpens(hd, seen);
    FirstIsManaged(hd, seen);
    RunStops(lines[1..]);
    assert lines[1..][..n - 1] == run;
    assert lines == [] + [hd] + run + rest;
    AroundRun([], hd, run, rest, service, open);
    RunReads(run, service);
    NoLines(open);
    OfThree([], Endpoints(run, Some(service)), Endpoints(rest, Some(service)), other);
    OfNothing(other);
    OpenCounts(rest, Some(service), other);
  }

  lemma {:induction false} OfNothing(other: string)
    ensures Of([], other) == []
  {
  }

  lemma {:induction false} FirstIsManaged(l: string, seen: set<string>)
    requires FirstOpened(l, seen).Some?
    ensures Managed(FirstOpened(l, seen).value)
  {
    hide Opens;
    ManagedAre(FirstOpened(l, seen).value);
  }

  /** A removal takes no endpoint from a service that is not managed. */
  lemma {:induction false} NoneTaken(lines: seq<string>, open: Option<string>, seen: set<string>, other: string)
    requires !Managed(other)
    ensures |Of(Left(lines, open, seen), other)| >= |Of(Endpoints(lines, open), other)|
    decreases |lines|
  {
    hide FirstOpened, Endpoints, Of, LineEndpoints, NextService, Loose, Managed, NonEndpoints, RunLength;
    if lines == [] {
      NoLines(open);
    } else {
      match FirstOpened(lines[0], seen) {
        case None =>
          assert lines == [lines[0]] + lines[1..];
          PlainOf(lines[0], lines[1..], open, seen, other);
          NoneTaken(lines[1..], NextService(lines[0], open), seen, other);
        case Some(service) =>
          var n := 1 + RunLength(lines[1..]);
          OpenerOf(lines, n, open, seen, other);
          var open' := if NonEndpoints(lines[1..n]) == [] then open else Some(service);
          OpenCounts(lines[n..], open', other);
          NoneTaken(lines[n..], open', seen + {service}, other);
      }
    }
  }

  /** What a removal leaves to the services that are not managed is what they had,
      exactly if no endpoint line falls to one of them. */
  lemma {:induction false} OthersKeptIff(lines: seq<string>, open: Option<string>, seen: set<string>)
    ensures SameOthers(Left(lines, open, seen), Endpoints(lines, open)) <==> NoneMoves(lines, open, seen)
    decreases |lines|, 0
  {
    hide FirstOpened, Endpoints, Of, LineEndpoints, NextService, Loose, Managed, NonEndpoints, RunLength;
    if lines == [] {
      NoLines(open);
    } else {
      var l, t := lines[0], lines[1..];
      assert lines == [l] + t;
      match FirstOpened(l, seen) {
        case None =>
          var next := NextService(l, open);
          OthersKeptIff(t, next, seen);
          forall other ensures Of(Left(lines, open, seen), other) == Of(Endpoints(lines, open), other)
                            <==> Of(Left(t, next, seen), other) == Of(Endpoints(t, next), other)
          {
            PlainOf(l, t, open, seen, other);
            SameTail(Of(LineEndpoints(l, open), other), Of(Left(t, next, seen), other), Of(Endpoints(t, next), other));
          }
        case Some(service) =>
          var n := 1 + RunLength(t);
          var rest, seen' := lines[n..], seen + {service};
          forall other | !Managed(other) ensures Of(Endpoints(lines, open), other) == Of(Endpoints(rest, None), other) {
            OpenerOf(lines, n, open, seen, other);
          }
          FirstIsManaged(l, seen);
          if NonEndpoints(lines[1..n]) == [] {
            DroppedOpener(lines, rest, open, seen', Left(lines, open, seen));
          } else {
            OthersKeptIff(rest, Some(service), seen');
            forall other | !Managed(other) ensures Of(Endpoints(rest, Some(service)), other) == Of(Endpoints(rest, None), other) {
              OpenCounts(rest, Some(service), other);
            }
          }
      }
    }
  }

  lemma {:induction false} SameTail<T>(a: seq<T>, b: seq<T>, c: seq<T>)
    ensures a + b == a + c <==> b == c
  {
    if a + b == a + c {
      assert (a + b)[|a|..] == b && (a + c)[|a|..] == c;
    }
  }

  /** Where the opener goes. */
  lemma {:induction false} DroppedOpener(lines: seq<string>, rest: seq<string>, open: Option<string>,
          seen: set<string>,
          left: seq<Endpoint>)
    requires |rest| < |lines| && left == Left(rest, open, seen)
    requires forall other | !Managed(other) :: Of(Endpoints(lines, open), other) == Of(Endpoints(rest, None), other)
    ensures SameOthers(left, Endpoints(lines, open))
        <==> (open.Some? && !Managed(open.value) ==> Loose(rest) == 0) && NoneMoves(rest, open, seen)
    decreases |rest|, 1
  {
    hide FirstOpened, Endpoints, Of, LineEndpoints, NextService, Loose, Managed, NonEndpoints, RunLength, Left,
         NoneMoves;
    OthersKeptIff(rest, open, seen);
    forall other | !Managed(other)
      ensures open != Some(other) ==> Of(Endpoints(rest, open), other) == Of(Endpoints(rest, None), other)
      ensures open == Some(other) ==> |Of(Endpoints(rest, open), other)| == |Of(Endpoints(rest, None), other)| + Loose(rest)
    {
      OpenCounts(rest, open, other);
    }
    if open.Some? && !Managed(open.value) {
      var x := open.value;
      if Loose(rest) > 0 {
        NoneTaken(rest, open, seen, x);
        assert |Of(left, x)| > |Of(Endpoints(lines, open), x)|;
      } else {
        NothingLoose(rest, x);
      }
    }
  }

  lemma {:induction false} NothingLoose(lines: seq<string>, service: string)
    requires Loose(lines) == 0
    ensures Of(Endpoints(lines, Some(service)), service) == Of(Endpoints(lines, None), service)
    decreases |lines|
  {
    hide NextService, LineEndpoints;
    if lines != [] {
      var l, t := lines[0], lines[1..];
      LineOpens(l, Some(service), None);
      LineOpens(l, None, Some(service));
      OfConcat(LineEndpoints(l, Some(service)), Endpoints(t, NextService(l, Some(service))), service);
      OfConcat(LineEndpoints(l, None), Endpoints(t, NextService(l, None)), service);
      OfLine(l, Some(service), service);
      OfLine(l, None, service);
      if NextService(l, Some("")) == Some("") && NextService(l, None) == None {
        NothingLoose(t, service);
      }
    }
  }
}

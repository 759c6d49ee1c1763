/** The value-source endpoint editor: setting or removing the endpoint of a
    profile through its `[services]` section. */
module EndpointEditor {
  import opened Text
  import opened Sections
  import opened AwsParser
  import opened ProfileWriter
  import opened ProfileKeys
  import opened ServicesEditor
  import Decimal

  // ---------------------------------------------------------------------
  // Sections as text
  // ---------------------------------------------------------------------

  function ServicesHeader(name: string): string {
    "[services " + name + "]"
  }

  /** The text of a section after its header line. */
  function BodyText(raw: string): string {
    raw[FirstLength(raw)..]
  }

  function HeaderLine(raw: string): string {
    EndedLine(raw[..FirstLength(raw)])
  }

  function AppendSection(contents: string, header: string, body: string): string {
    (if contents == "" then "" else EndedLine(contents) + "\n") + header + "\n" + TrimBreaks(body) + "\n"
  }

  function ReplaceSectionBody(contents: string, header: string, raw: string, body: string): string {
    ReplaceSection(contents, header, HeaderLine(raw) + body)
  }

  function RemoveSection(contents: string, header: string): string {
    var cs := Chunks(contents);
    var i := HeaderIndex(cs, header);
    if i == |cs| then contents else
      var before, after := Flatten(cs[..i]), Flatten(cs[SectionEnd(cs, i)..]);
      if after != "" then before + after
      else if TrimBreaks(before) == "" then ""
      else TrimBreaks(before) + "\n"
  }

  /** `has_properties`. */
  predicate HasProperties(body: string) {
    exists i | 0 <= i < |Lines(body)| :: LineKeyValue(Lines(body)[i]).Some?
  }

  // ---------------------------------------------------------------------
  // A name no section and no profile uses
  // ---------------------------------------------------------------------

  function Candidate(base: string, k: nat): string {
    if k <= 1 then base else base + "-" + Decimal.Print(k)
  }

  /** The lower-cased headers a new section must not have. */
  function TakenHeaders(contents: string, profiles: seq<ProfileInfo>): set<string> {
    (set c | c in Chunks(contents) :: Lower(Trim(c)))
    + (set p | p in profiles && p.services.Some? :: Lower(ServicesHeader(p.services.value)))
  }

  predicate IsTaken(contents: string, profiles: seq<ProfileInfo>, candidate: string) {
    || SectionRaw(contents, ServicesHeader(candidate)).Some?
    || exists p | p in profiles :: p.services.Some? && EqIgnoreCase(p.services.value, candidate)
  }

  function CandidateKey(base: string, k: nat): string {
    Lower(ServicesHeader(Candidate(base, k)))
  }

  /** The candidates tried before the `k`-th. */
  function Tried(base: string, k: nat): set<string> {
    set j | 1 <= j < k :: CandidateKey(base, j)
  }

  lemma {:induction false} ServicesHeaderInjective(a: string, b: string)
    requires Lower(ServicesHeader(a)) == Lower(ServicesHeader(b))
    ensures Lower(a) == Lower(b)
  {
    var x, y := ServicesHeader(a), ServicesHeader(b);
    assert |Lower(x)| == |x| && |Lower(y)| == |y|;
    forall i | 0 <= i < |a| ensures Lower(a)[i] == Lower(b)[i] {
      assert x[10 + i] == a[i] && y[10 + i] == b[i];
      assert Lower(x)[10 + i] == Lower(y)[10 + i];
    }
  }

  lemma {:induction false} CandidatesDiffer(base: string, j: nat, k: nat)
    requires 1 <= j < k
    ensures CandidateKey(base, j) != CandidateKey(base, k)
  {
    hide Lower, ServicesHeader;
    if CandidateKey(base, j) == CandidateKey(base, k) {
      ServicesHeaderInjective(Candidate(base, j), Candidate(base, k));
      LowerCandidates(base, j, k);
      if j > 1 {
        Decimal.PrintInjective(j, k);
      }
    }
  }

  lemma {:induction false} LowerCandidates(base: string, j: nat, k: nat)
    requires 1 <= j < k && Lower(Candidate(base, j)) == Lower(Candidate(base, k))
    ensures j > 1 && Decimal.Print(j) == Decimal.Print(k)
  {
    var a, b := Candidate(base, j), Candidate(base, k);
    assert |a| == |Lower(a)| == |Lower(b)| == |b|;
    if j > 1 {
      var p, q, n := Decimal.Print(j), Decimal.Print(k), |base| + 1;
      assert |p| == |q|;
      forall i | 0 <= i < |p| ensures p[i] == q[i] {
        assert a[n + i] == p[i] && b[n + i] == q[i];
        assert Lower(a)[n + i] == Lower(b)[n + i];
      }
    }
  }

  lemma {:induction false} NotTried(base: string, k: nat)
    requires k >= 1
    ensures CandidateKey(base, k) !in Tried(base, k)
  {
    hide CandidateKey;
    if CandidateKey(base, k) in Tried(base, k) {
      var j :| 1 <= j < k && CandidateKey(base, j) == CandidateKey(base, k);
      CandidatesDiffer(base, j, k);
    }
  }

  /** The number of taken headers not yet tried: it falls with every taken
      candidate, so the search ends. */
  function Remaining(taken: set<string>, base: string, k: nat): nat {
    |taken - Tried(base, k)|
  }

  lemma {:induction false} SearchProgress(taken: set<string>, base: string, k: nat)
    requires k >= 1 && CandidateKey(base, k) in taken
    ensures Remaining(taken, base, k + 1) < Remaining(taken, base, k)
  {
    hide CandidateKey;
    NotTried(base, k);
    assert Tried(base, k + 1) == Tried(base, k) + {CandidateKey(base, k)} by {
      forall x | x in Tried(base, k + 1) ensures x in Tried(base, k) + {CandidateKey(base, k)} {
        var j :| 1 <= j < k + 1 && CandidateKey(base, j) == x;
      }
    }
    var a, b := taken - Tried(base, k), taken - Tried(base, k + 1);
    assert b == a - {CandidateKey(base, k)};
  }

  /** The first candidate from the `k`-th on whose header is free. */
  function FreshFrom(taken: set<string>, base: string, k: nat): (name: string)
    requires k >= 1
    ensures Lower(ServicesHeader(name)) !in taken
    decreases Remaining(taken, base, k)
  {
    if CandidateKey(base, k) !in taken then Candidate(base, k)
    else SearchProgress(taken, base, k); FreshFrom(taken, base, k + 1)
  }

  /** The name found is the first of the candidates that is free. */
  lemma {:induction false} FreshIsCandidate(taken: set<string>, base: string, k: nat) returns (j: nat)
    requires k >= 1
    ensures j >= k && FreshFrom(taken, base, k) == Candidate(base, j)
    ensures forall i | k <= i < j :: CandidateKey(base, i) in taken
    decreases Remaining(taken, base, k)
  {
    hide CandidateKey, Candidate, Remaining, Lower, ServicesHeader;
    j := k;
    if CandidateKey(base, k) in taken {
      SearchProgress(taken, base, k);
      j := FreshIsCandidate(taken, base, k + 1);
    }
  }

  function FreshName(contents: string, profiles: seq<ProfileInfo>, profileName: string): string {
    FreshFrom(TakenHeaders(contents, profiles), "dbflux-" + profileName, 1)
  }

  lemma {:induction false} LowerServicesHeader(a: string, b: string)
    ensures Lower(a) == Lower(b) <==> Lower(ServicesHeader(a)) == Lower(ServicesHeader(b))
  {
    hide Lower;
    if Lower(ServicesHeader(a)) == Lower(ServicesHeader(b)) {
      ServicesHeaderInjective(a, b);
    }
    LowerConcat("[services " + a, "]");
    LowerConcat("[services " + b, "]");
    LowerConcat("[services ", a);
    LowerConcat("[services ", b);
  }

  lemma {:induction false} SectionIffHeader(cs: seq<string>, header: string)
    ensures SectionOf(cs, header).Some? <==> exists c | c in cs :: Lower(Trim(c)) == Lower(header)
  {
    hide Trim, Lower;
    if cs != [] {
      SectionIffHeader(cs[1..], header);
      assert forall c :: c in cs <==> c == cs[0] || c in cs[1..];
    }
  }

  /** The test of the search loop is membership in the set of taken headers. */
  lemma {:induction false} TakenIsMember(contents: string, profiles: seq<ProfileInfo>, candidate: string)
    ensures IsTaken(contents, profiles, candidate)
        <==> Lower(ServicesHeader(candidate)) in TakenHeaders(contents, profiles)
  {
    hide Trim, Lower, ServicesHeader, Chunks, SectionOf;
    SectionIffHeader(Chunks(contents), ServicesHeader(candidate));
    forall p | p in profiles && p.services.Some?
      ensures EqIgnoreCase(p.services.value, candidate) <==> Lower(ServicesHeader(p.services.value)) == Lower(ServicesHeader(candidate))
    {
      LowerServicesHeader(p.services.value, candidate);
    }
  }

  /** A new section is named after the profile, with the first number, if any is
      needed, that makes the name one nobody uses. */
  lemma {:induction false} FreshNameIsFirst(contents: string, profiles: seq<ProfileInfo>, profileName: string)
    returns (j: nat)
    ensures var base, name := "dbflux-" + profileName, FreshName(contents, profiles, profileName);
            && j >= 1 && name == (if j == 1 then base else base + "-" + Decimal.Print(j))
            && !IsTaken(contents, profiles, name)
            && (j > 1 ==> IsTaken(contents, profiles, base))
            && forall i | 1 < i < j :: IsTaken(contents, profiles, base + "-" + Decimal.Print(i))
  {
    hide IsTaken, TakenHeaders, Decimal.Print, Lower, ServicesHeader, FreshFrom;
    var base := "dbflux-" + profileName;
    j := FreshIsCandidate(TakenHeaders(contents, profiles), base, 1);
    TakenIsMember(contents, profiles, FreshName(contents, profiles, profileName));
    forall i | 1 <= i < j ensures IsTaken(contents, profiles, Candidate(base, i)) {
      assert CandidateKey(base, i) in TakenHeaders(contents, profiles);
      TakenIsMember(contents, profiles, Candidate(base, i));
    }
    if j > 1 { assert Candidate(base, 1) == base; }
    forall i | 1 < i < j ensures IsTaken(contents, profiles, base + "-" + Decimal.Print(i)) {
      assert Candidate(base, i) == base + "-" + Decimal.Print(i);
    }
  }

  // ---------------------------------------------------------------------
  // The editor
  // ---------------------------------------------------------------------

  /** Points the profile at a new `[services]` section holding `body`. */
  function LinkNewSection(contents: string, profiles: seq<ProfileInfo>, profileName: string, body: string): string {
    var name := FreshName(contents, profiles, profileName);
    AppendSection(Relink(contents, profileName, Some(name)), ServicesHeader(name), body)
  }

  /** The profile block rewritten with its `services` key set or dropped. */
  function Relink(contents: string, profileName: string, name: Option<string>): string {
    WithProfileBlock(contents, profileName, RelinkFields(name), RelinkRemoved(name))
  }

  predicate IsTarget(p: ProfileInfo, profileName: string) {
    !p.isSsoSession && EqIgnoreCase(p.name, profileName)
  }

  function TargetIndex(profiles: seq<ProfileInfo>, profileName: string): (i: nat)
    ensures i <= |profiles|
    ensures i < |profiles| ==> IsTarget(profiles[i], profileName)
    ensures forall k | 0 <= k < i :: !IsTarget(profiles[k], profileName)
  {
    if profiles == [] || IsTarget(profiles[0], profileName) then 0
    else 1 + TargetIndex(profiles[1..], profileName)
  }

  predicate RefersTo(p: ProfileInfo, section: string) {
    p.services.Some? && EqIgnoreCase(p.services.value, section)
  }

  /** Another profile refers to the section. */
  predicate IsShared(profiles: seq<ProfileInfo>, profileName: string, section: string) {
    exists i | 0 <= i < |profiles| ::
      !profiles[i].isSsoSession && !EqIgnoreCase(profiles[i].name, profileName) && RefersTo(profiles[i], section)
  }

  /** `apply_value_source_endpoint` for a profile that refers to `section`. */
  function EditSection(contents: string, profiles: seq<ProfileInfo>, profileName: string, section: string,
          url: Option<string>): string {
    var header := ServicesHeader(section);
    var existing := SectionRaw(contents, header);
    var body := if existing.Some? then BodyText(existing.value) else "";
    var edited := EditBody(body, url);
    if edited == body then contents
    else if IsShared(profiles, profileName, section) then
      if HasProperties(edited) then LinkNewSection(contents, profiles, profileName, edited)
      else Relink(contents, profileName, None)
    else if !HasProperties(edited) then Relink(RemoveSection(contents, header), profileName, None)
    else if existing.Some? then ReplaceSectionBody(contents, header, existing.value, edited)
    else AppendSection(contents, header, edited)
  }

  /** `apply_value_source_endpoint`. */
  function Apply(contents: string, profileName: string, url: Option<string>): string {
    var profiles := Parse(contents);
    var t := TargetIndex(profiles, profileName);
    if t == |profiles| then contents
    else if profiles[t].services.Some? then EditSection(contents, profiles, profileName, profiles[t].services.value, url)
    else if url.Some? then LinkNewSection(contents, profiles, profileName, EditBody("", url))
    else contents
  }
}

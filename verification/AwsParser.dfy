/** The parser of `~/.aws/config`: what each section means, and the loop that
    reads a whole file into profile entries. */
module AwsParser {
  import opened Text
  import opened Sections

  // ---------------------------------------------------------------------
  // One line
  // ---------------------------------------------------------------------

  /** `parse_key_value`: the lower-cased key and the value around the first `=`. */
  function KeyValue(line: string): Option<(string, string)> {
    var n := IndexOf(line, '=');
    if n == |line| then None else
      var key := Lower(Trim(line[..n]));
      if key == "" then None else Some((key, Trim(line[n + 1..])))
  }

  datatype SectionKind =
    | Profile(name: string)
    | SsoSession(name: string)
    | Services(name: string)

  /** `strip_prefix(word)` followed by the check for an empty name. */
  function NameAfter(header: string, word: string): Option<string>
    requires word <= header
  {
    var name := Trim(header[|word|..]);
    if name == "" then None else Some(name)
  }

  /** `parse_section_kind`. */
  function SectionKindOf(header: string): Option<SectionKind> {
    if EqIgnoreCase(header, "default") then Some(Profile("default"))
    else if "profile" <= header then
      match NameAfter(header, "profile") case None => None case Some(n) => Some(Profile(n))
    else if "sso-session" <= header then
      match NameAfter(header, "sso-session") case None => None case Some(n) => Some(SsoSession(n))
    else if "services" <= header then
      match NameAfter(header, "services") case None => None case Some(n) => Some(Services(n))
    else None
  }

  /** A blank line or a comment: the parser reads nothing from it. */
  predicate IsSkipped(c: string) {
    Trim(c) == "" || Trim(c)[0] == '#'
  }

  /** A line the parser takes for a section header. */
  predicate IsHeader(c: string) {
    var t := Trim(c);
    t != "" && t[0] == '[' && t[|t| - 1] == ']'
  }

  function HeaderKind(header: string): Option<SectionKind> {
    if |header| < 2 then None else SectionKindOf(Trim(header[1..|header| - 1]))
  }

  /** The key the parser records for a line of a profile section. */
  function LineKeys(c: string): map<string, string> {
    if IsSkipped(c) then map[] else
      match KeyValue(Trim(c)) case None => map[] case Some((k, v)) => map[k := v]
  }

  /** The service sub-section open after a line of a `[services]` section. */
  function NextService(c: string, open: Option<string>): Option<string> {
    if IsSkipped(c) then open else
      match KeyValue(Trim(c))
      case None => open
      case Some((k, v)) => if IsIndented(c) then open else if v == "" then Some(k) else None
  }

  datatype Endpoint = Endpoint(service: string, url: string)

  /** The endpoint a line gives to the open service, if any. */
  function LineEndpoints(c: string, open: Option<string>): seq<Endpoint> {
    if IsSkipped(c) || !IsIndented(c) || open.None? then [] else
      match KeyValue(Trim(c))
      case None => []
      case Some((k, v)) => if k == "endpoint_url" then [Endpoint(open.value, v)] else []
  }

  // ---------------------------------------------------------------------
  // One section, and a whole file
  // ---------------------------------------------------------------------

  /** The last value of each key. */
  function Keys(body: seq<string>): map<string, string> {
    if body == [] then map[] else LineKeys(body[0]) + Keys(body[1..])
  }

  function ServiceAfter(body: seq<string>, open: Option<string>): Option<string> {
    if body == [] then open else ServiceAfter(body[1..], NextService(body[0], open))
  }

  /** Every endpoint the lines of a `[services]` section give, in order. */
  function Endpoints(body: seq<string>, open: Option<string>): seq<Endpoint> {
    if body == [] then []
    else LineEndpoints(body[0], open) + Endpoints(body[1..], NextService(body[0], open))
  }

  /** What the parser can learn from a section. */
  datatype Section = Section(header: string, keys: map<string, string>, endpoints: seq<Endpoint>)

  function SectionFrom(c: string, body: seq<string>): Section {
    Section(Trim(c), Keys(body), Endpoints(body, None))
  }

  function PlainLength(cs: seq<string>): (n: nat)
    ensures n <= |cs|
  {
    if cs == [] || IsHeader(cs[0]) then 0 else 1 + PlainLength(cs[1..])
  }

  /** The sections of a file, in order; lines before the first header are ignored. */
  function Doc(cs: seq<string>): seq<Section>
    decreases |cs|
  {
    if cs == [] then []
    else if IsHeader(cs[0]) then
      var n := PlainLength(cs[1..]);
      [SectionFrom(cs[0], cs[1..1 + n])] + Doc(cs[1 + n..])
    else Doc(cs[1..])
  }

  /** `AwsProfileInfo`. */
  datatype ProfileInfo = ProfileInfo(
    name: string,
    region: Option<string>,
    isSso: bool,
    ssoStartUrl: Option<string>,
    ssoRegion: Option<string>,
    ssoAccountId: Option<string>,
    ssoRoleName: Option<string>,
    services: Option<string>,
    endpointUrl: Option<string>,
    ssoSession: Option<string>,
    isSsoSession: bool)

  function Get(m: map<string, string>, k: string): Option<string> {
    if k in m then Some(m[k]) else None
  }

  function ProfileFrom(name: string, isSession: bool, keys: map<string, string>): ProfileInfo {
    ProfileInfo(
      name,
      Get(keys, "region"),
      isSession || "sso_start_url" in keys || "sso_session" in keys,
      Get(keys, "sso_start_url"),
      Get(keys, "sso_region"),
      Get(keys, "sso_account_id"),
      Get(keys, "sso_role_name"),
      Get(keys, "services"),
      None,
      Get(keys, "sso_session"),
      isSession)
  }

  /** `flush_section`: the entry a finished section adds, if any. */
  function EntryOf(kind: Option<SectionKind>, keys: map<string, string>): seq<ProfileInfo> {
    match kind
    case None => []
    case Some(Services(_)) => []
    case Some(Profile(name)) => [ProfileFrom(name, false, keys)]
    case Some(SsoSession(name)) => [ProfileFrom(name, true, keys)]
  }

  function Entries(doc: seq<Section>): seq<ProfileInfo> {
    if doc == [] then [] else EntryOf(HeaderKind(doc[0].header), doc[0].keys) + Entries(doc[1..])
  }

  predicate IsServicesFor(s: Section, nameLower: string) {
    match HeaderKind(s.header)
    case Some(Services(n)) => Lower(n) == nameLower
    case _ => false
  }

  /** The endpoints of every `[services]` section with this name, ignoring case. */
  function EndpointsOf(doc: seq<Section>, nameLower: string): seq<Endpoint> {
    if doc == [] then []
    else (if IsServicesFor(doc[0], nameLower) then doc[0].endpoints else []) + EndpointsOf(doc[1..], nameLower)
  }

  predicate IsManager(service: string) {
    service == "secrets_manager" || service == "secrets-manager"
  }

  /** The first endpoint of Secrets Manager, under either spelling. */
  function ManagerUrl(es: seq<Endpoint>): Option<string> {
    if es == [] then None
    else if IsManager(es[0].service) then Some(es[0].url)
    else ManagerUrl(es[1..])
  }

  /** The last endpoint of SSM. */
  function SsmUrl(es: seq<Endpoint>): Option<string> {
    if es == [] then None
    else if es[|es| - 1].service == "ssm" then Some(es[|es| - 1].url)
    else SsmUrl(es[..|es| - 1])
  }

  function UrlOf(es: seq<Endpoint>): Option<string> {
    if ManagerUrl(es).Some? then ManagerUrl(es) else SsmUrl(es)
  }

  function Resolve(p: ProfileInfo, doc: seq<Section>): ProfileInfo {
    if p.services.None? then p
    else p.(endpointUrl := UrlOf(EndpointsOf(doc, Lower(p.services.value))))
  }

  function ResolveAll(ps: seq<ProfileInfo>, doc: seq<Section>): (rs: seq<ProfileInfo>)
    ensures |rs| == |ps|
    ensures forall i | 0 <= i < |ps| :: rs[i] == Resolve(ps[i], doc)
  {
    seq(|ps|, i requires 0 <= i < |ps| => Resolve(ps[i], doc))
  }

  function Interpret(doc: seq<Section>): seq<ProfileInfo> {
    ResolveAll(Entries(doc), doc)
  }

  /** What a config file means: its profile entries. */
  function Parse(contents: string): seq<ProfileInfo> {
    Interpret(Doc(Chunks(contents)))
  }

  // ---------------------------------------------------------------------
  // Cutting a file at a header
  // ---------------------------------------------------------------------

  lemma {:induction false} MapAssoc(a: map<string, string>, b: map<string, string>, c: map<string, string>)
    ensures a + b + c == a + (b + c)
  {
  }

  lemma {:induction false} KeysConcat(a: seq<string>, b: seq<string>)
    ensures Keys(a + b) == Keys(a) + Keys(b)
  {
    hide LineKeys;
    if a == [] {
      assert a + b == b;
    } else {
      assert (a + b)[1..] == a[1..] + b;
      KeysConcat(a[1..], b);
      MapAssoc(LineKeys(a[0]), Keys(a[1..]), Keys(b));
    }
  }

  lemma {:induction false} EndpointsConcat(a: seq<string>, b: seq<string>, open: Option<string>)
    ensures ServiceAfter(a + b, open) == ServiceAfter(b, ServiceAfter(a, open))
    ensures Endpoints(a + b, open) == Endpoints(a, open) + Endpoints(b, ServiceAfter(a, open))
  {
    hide NextService, LineEndpoints;
    if a == [] {
      assert a + b == b;
    } else {
      assert (a + b)[1..] == a[1..] + b;
      EndpointsConcat(a[1..], b, NextService(a[0], open));
    }
  }

  lemma {:induction false} PlainLengthSplit(a: seq<string>, b: seq<string>)
    requires b == [] || IsHeader(b[0])
    ensures PlainLength(a + b) == PlainLength(a)
  {
    if a == [] {
      assert a + b == b;
    } else {
      assert (a + b)[1..] == a[1..] + b;
      PlainLengthSplit(a[1..], b);
    }
  }

  lemma {:induction false} DocStep(c: string, t: seq<string>, n: nat)
    requires IsHeader(c) && n == PlainLength(t)
    ensures Doc([c] + t) == [SectionFrom(c, t[..n])] + Doc(t[n..])
  {
    var cs := [c] + t;
    assert cs[1..] == t;
    assert cs[1..1 + n] == t[..n];
    assert cs[1 + n..] == t[n..];
  }

  lemma {:induction false} DocConcatStep(c: string, t: seq<string>, b: seq<string>, n: nat)
    requires b == [] || IsHeader(b[0])
    requires IsHeader(c) && n == PlainLength(t)
    requires Doc(t[n..] + b) == Doc(t[n..]) + Doc(b)
    ensures Doc([c] + (t + b)) == Doc([c] + t) + Doc(b)
  {
    hide Doc, PlainLength, IsHeader, SectionFrom;
    PlainLengthSplit(t, b);
    assert (t + b)[..n] == t[..n] && (t + b)[n..] == t[n..] + b;
    DocStep(c, t, n);
    DocStep(c, t + b, n);
    ConcatAssoc([SectionFrom(c, t[..n])], Doc(t[n..]), Doc(b));
  }

  lemma {:induction false} DocSkip(c: string, t: seq<string>)
    requires !IsHeader(c)
    ensures Doc([c] + t) == Doc(t)
  {
    assert ([c] + t)[1..] == t;
  }

  lemma {:induction false} DocEmpty()
    ensures Doc([]) == []
  {
  }

  /** Cutting a file at a header cuts no section in two. */
  lemma {:induction false} DocConcat(a: seq<string>, b: seq<string>)
    requires b == [] || IsHeader(b[0])
    ensures Doc(a + b) == Doc(a) + Doc(b)
    decreases |a|
  {
    hide Doc, IsHeader, PlainLength;
    if a == [] {
      assert a + b == b;
      DocEmpty();
    } else {
      var c, t := a[0], a[1..];
      assert a == [c] + t && a + b == [c] + (t + b);
      if IsHeader(c) {
        var n := PlainLength(t);
        DocConcat(t[n..], b);
        DocConcatStep(c, t, b, n);
      } else {
        DocSkip(c, t);
        DocSkip(c, t + b);
        DocConcat(t, b);
      }
    }
  }

  predicate AllPlain(cs: seq<string>) {
    forall k | 0 <= k < |cs| :: !IsHeader(cs[k])
  }

  lemma {:induction false} PlainLengthAll(cs: seq<string>)
    requires AllPlain(cs)
    ensures PlainLength(cs) == |cs|
    ensures Doc(cs) == []
  {
    if cs != [] { PlainLengthAll(cs[1..]); }
  }

  lemma {:induction false} DocOne(c: string, body: seq<string>)
    requires IsHeader(c) && AllPlain(body)
    ensures Doc([c] + body) == [SectionFrom(c, body)]
  {
    PlainLengthAll(body);
    var cs := [c] + body;
    assert cs[1..] == body;
    assert cs[1..1 + |body|] == body && cs[1 + |body|..] == [];
  }

  lemma {:induction false} EntriesConcat(a: seq<Section>, b: seq<Section>)
    ensures Entries(a + b) == Entries(a) + Entries(b)
  {
    hide EntryOf, HeaderKind;
    if a == [] {
      assert a + b == b;
    } else {
      assert (a + b)[1..] == a[1..] + b;
      EntriesConcat(a[1..], b);
    }
  }

  lemma {:induction false} EndpointsOfConcat(a: seq<Section>, b: seq<Section>, nameLower: string)
    ensures EndpointsOf(a + b, nameLower) == EndpointsOf(a, nameLower) + EndpointsOf(b, nameLower)
  {
    hide IsServicesFor;
    if a == [] {
      assert a + b == b;
    } else {
      assert (a + b)[1..] == a[1..] + b;
      EndpointsOfConcat(a[1..], b, nameLower);
    }
  }

  lemma {:induction false} ManagerUrlConcat(a: seq<Endpoint>, b: seq<Endpoint>)
    ensures ManagerUrl(a + b) == if ManagerUrl(a).Some? then ManagerUrl(a) else ManagerUrl(b)
  {
    if a == [] {
      assert a + b == b;
    } else {
      assert (a + b)[1..] == a[1..] + b;
      ManagerUrlConcat(a[1..], b);
    }
  }

  lemma {:induction false} SsmUrlConcat(a: seq<Endpoint>, b: seq<Endpoint>)
    ensures SsmUrl(a + b) == if SsmUrl(b).Some? then SsmUrl(b) else SsmUrl(a)
  {
    if b == [] {
      assert a + b == a;
    } else {
      assert (a + b)[..|a + b| - 1] == a + b[..|b| - 1];
      SsmUrlConcat(a, b[..|b| - 1]);
    }
  }

  // ---------------------------------------------------------------------
  // The parser loop
  // ---------------------------------------------------------------------

  datatype ServicesEndpoints = ServicesEndpoints(secretsManager: Option<string>, ssm: Option<string>)

  function Lookup(services: map<string, ServicesEndpoints>, name: string): ServicesEndpoints {
    if name in services then services[name] else ServicesEndpoints(None, None)
  }

  function Recording(es: seq<Endpoint>): ServicesEndpoints {
    ServicesEndpoints(ManagerUrl(es), SsmUrl(es))
  }

  /** What more endpoints do to a table entry: the first Secrets Manager one and
      the last SSM one count. */
  function Merge(e: ServicesEndpoints, es: seq<Endpoint>): ServicesEndpoints {
    ServicesEndpoints(
      if e.secretsManager.Some? then e.secretsManager else ManagerUrl(es),
      if SsmUrl(es).Some? then SsmUrl(es) else e.ssm)
  }

  lemma {:induction false} MergeRecords(a: seq<Endpoint>, b: seq<Endpoint>)
    ensures Recording(a + b) == Merge(Recording(a), b)
  {
    ManagerUrlConcat(a, b);
    SsmUrlConcat(a, b);
  }

  /** The table holds, for every name, the endpoints of the sections read so far. */
  ghost predicate Records(services: map<string, ServicesEndpoints>, doc: seq<Section>) {
    forall n :: Lookup(services, n) == Recording(EndpointsOf(doc, n))
  }

  /** `parse_services_line`, for a line that is neither blank nor a comment. */
  method ParseServicesLine(line: string, sectionName: string, currentService: Option<string>,
                           services: map<string, ServicesEndpoints>)
    returns (currentService': Option<string>, services': map<string, ServicesEndpoints>)
    requires !IsSkipped(line)
    ensures currentService' == NextService(line, currentService)
    ensures LineEndpoints(line, currentService) == [] ==> services' == services
    ensures LineEndpoints(line, currentService) != [] ==>
              services' == services[Lower(sectionName) :=
                Merge(Lookup(services, Lower(sectionName)), LineEndpoints(line, currentService))]
  {
    currentService', services' := currentService, services;
    var kv := KeyValue(Trim(line));
    if kv.None? {
      return;
    }
    var (key, value) := kv.value;
    if !IsIndented(line) {
      currentService' := if value == "" then Some(key) else None;
      return;
    }
    if currentService.None? || key != "endpoint_url" {
      return;
    }
    var service := currentService.value;
    var es := [Endpoint(service, value)];
    assert LineEndpoints(line, currentService) == es;
    assert ManagerUrl(es[1..]) == None;
    assert SsmUrl(es[..0]) == None;
    var name := Lower(sectionName);
    var endpoints := Lookup(services, name);
    if IsManager(service) {
      if endpoints.secretsManager.None? {
        endpoints := endpoints.(secretsManager := Some(value));
      }
    } else if service == "ssm" {
      endpoints := endpoints.(ssm := Some(value));
    }
    services' := services[name := endpoints];
  }

  /** The variables of the loop. */
  datatype ParserState = ParserState(
    profiles: seq<ProfileInfo>,
    section: Option<SectionKind>,
    keys: map<string, string>,
    service: Option<string>,
    services: map<string, ServicesEndpoints>)

  predicate InServices(kind: Option<SectionKind>) {
    kind.Some? && kind.value.Services?
  }

  /** `h` is the last header among the first `k` lines, or -1 when there is none. */
  predicate OpenAt(cs: seq<string>, h: int, k: nat) {
    && -1 <= h < |cs| && h < k <= |cs| && AllPlain(cs[h + 1..k])
    && (h >= 0 ==> IsHeader(cs[h]))
  }

  /** The state after `k` lines: finished sections are entries, the open one is
      described by its kind, keys and open service. */
  ghost predicate ParserInv(cs: seq<string>, h: int, k: nat, st: ParserState)
    requires OpenAt(cs, h, k)
  {
    && (h == -1 ==> st.section.None? && st.profiles == [])
    && (h >= 0 ==>
          && st.profiles == Entries(Doc(cs[..h]))
          && st.section == HeaderKind(Trim(cs[h]))
          && (InServices(st.section) ==> st.service == ServiceAfter(cs[h + 1..k], None))
          && (!InServices(st.section) && st.section.Some? ==> st.keys == Keys(cs[h + 1..k])))
    && Records(st.services, Doc(cs[..k]))
  }

  lemma {:induction false} DocOpen(cs: seq<string>, h: int, k: nat)
    requires 0 <= h < k <= |cs| && IsHeader(cs[h]) && AllPlain(cs[h + 1..k])
    ensures Doc(cs[..k]) == Doc(cs[..h]) + [SectionFrom(cs[h], cs[h + 1..k])]
  {
    assert cs[..k] == cs[..h] + cs[h..k];
    DocConcat(cs[..h], cs[h..k]);
    assert cs[h..k] == [cs[h]] + cs[h + 1..k];
    DocOne(cs[h], cs[h + 1..k]);
  }

  lemma {:induction false} DocPrelude(cs: seq<string>, k: nat)
    requires k <= |cs| && AllPlain(cs[..k])
    ensures Doc(cs[..k]) == []
  {
    PlainLengthAll(cs[..k]);
  }

  /** What one more line of an open section adds to the endpoints of a name. */
  lemma {:induction false} ExtendEndpoints(cs: seq<string>, h: int, k: nat, n: string)
    requires k < |cs| && OpenAt(cs, h, k) && h >= 0 && !IsHeader(cs[k])
    ensures EndpointsOf(Doc(cs[..k + 1]), n)
         == EndpointsOf(Doc(cs[..k]), n)
          + if IsServicesFor(SectionFrom(cs[h], []), n) then LineEndpoints(cs[k], ServiceAfter(cs[h + 1..k], None)) else []
  {
    hide Doc, IsHeader, HeaderKind, LineEndpoints, EndpointsOf, NextService;
    var body, c := cs[h + 1..k], cs[k];
    assert cs[h + 1..k + 1] == body + [c];
    DocOpen(cs, h, k);
    DocOpen(cs, h, k + 1);
    EndpointsConcat(body, [c], None);
    assert Endpoints([c], ServiceAfter(body, None)) == LineEndpoints(c, ServiceAfter(body, None)) + Endpoints([], None);
    EndpointsOfOne(Doc(cs[..h]), SectionFrom(cs[h], body), n);
    EndpointsOfOne(Doc(cs[..h]), SectionFrom(cs[h], body + [c]), n);
    ConcatAssoc(EndpointsOf(Doc(cs[..h]), n), Endpoints(body, None), LineEndpoints(c, ServiceAfter(body, None)));
  }

  lemma {:induction false} EndpointsOfOne(doc: seq<Section>, s: Section, n: string)
    ensures EndpointsOf(doc + [s], n) == EndpointsOf(doc, n) + if IsServicesFor(s, n) then s.endpoints else []
  {
    EndpointsOfConcat(doc, [s], n);
    assert EndpointsOf([s], n) == (if IsServicesFor(s, n) then s.endpoints else []) + EndpointsOf([], n);
  }

  /** A line that gives no endpoint leaves the table as it is. */
  lemma {:induction false} KeepRecords(cs: seq<string>, h: int, k: nat, services: map<string, ServicesEndpoints>)
    requires k < |cs| && OpenAt(cs, h, k) && !IsHeader(cs[k]) && Records(services, Doc(cs[..k]))
    requires h >= 0 && InServices(HeaderKind(Trim(cs[h]))) ==>
               LineEndpoints(cs[k], ServiceAfter(cs[h + 1..k], None)) == []
    ensures Records(services, Doc(cs[..k + 1]))
  {
    hide Doc, EndpointsOf, IsHeader, HeaderKind, LineEndpoints, ServiceAfter, Trim;
    if h == -1 {
      assert cs[h + 1..k] == cs[..k];
      DocPrelude(cs, k);
      DocPrelude(cs, k + 1);
    } else {
      forall n ensures EndpointsOf(Doc(cs[..k + 1]), n) == EndpointsOf(Doc(cs[..k]), n) {
        ExtendEndpoints(cs, h, k, n);
      }
    }
  }

  lemma {:induction false} HeaderRecords(cs: seq<string>, k: nat, services: map<string, ServicesEndpoints>)
    requires k < |cs| && IsHeader(cs[k]) && Records(services, Doc(cs[..k]))
    ensures Records(services, Doc(cs[..k + 1]))
  {
    assert cs[k + 1..k + 1] == [];
    DocOpen(cs, k, k + 1);
    forall n ensures EndpointsOf(Doc(cs[..k + 1]), n) == EndpointsOf(Doc(cs[..k]), n) {
      EndpointsOfOne(Doc(cs[..k]), SectionFrom(cs[k], []), n);
    }
  }

  lemma {:induction false} ServicesRecords(cs: seq<string>, h: int, k: nat, name: string, es: seq<Endpoint>,
                                           services: map<string, ServicesEndpoints>)
    requires k < |cs| && OpenAt(cs, h, k) && h >= 0 && !IsHeader(cs[k])
    requires HeaderKind(Trim(cs[h])) == Some(Services(name))
    requires Records(services, Doc(cs[..k]))
    requires es == LineEndpoints(cs[k], ServiceAfter(cs[h + 1..k], None))
    ensures Records(services[Lower(name) := Merge(Lookup(services, Lower(name)), es)], Doc(cs[..k + 1]))
  {
    var d, d' := Doc(cs[..k]), Doc(cs[..k + 1]);
    var services' := services[Lower(name) := Merge(Lookup(services, Lower(name)), es)];
    forall n ensures Lookup(services', n) == Recording(EndpointsOf(d', n)) {
      ExtendEndpoints(cs, h, k, n);
      if n == Lower(name) {
        assert IsServicesFor(SectionFrom(cs[h], []), n);
        MergeRecords(EndpointsOf(d, n), es);
      } else {
        assert EndpointsOf(d', n) == EndpointsOf(d, n);
        assert Lookup(services, n) == Recording(EndpointsOf(d, n));
      }
    }
  }

  /** `flush_section` on the section that was open. */
  lemma {:induction false} FlushEntries(cs: seq<string>, h: int, k: nat, st: ParserState)
    requires OpenAt(cs, h, k) && ParserInv(cs, h, k, st)
    ensures st.profiles + EntryOf(st.section, st.keys) == Entries(Doc(cs[..k]))
    ensures Records(st.services, Doc(cs[..k]))
  {
    hide Doc, Records, HeaderKind, IsHeader;
    if h == -1 {
      assert cs[h + 1..k] == cs[..k];
      DocPrelude(cs, k);
    } else {
      DocOpen(cs, h, k);
      var s := SectionFrom(cs[h], cs[h + 1..k]);
      EntriesConcat(Doc(cs[..h]), [s]);
      assert Entries([s]) == EntryOf(HeaderKind(s.header), s.keys) + Entries([]);
    }
  }

  lemma {:induction false} StartInv(cs: seq<string>)
    ensures OpenAt(cs, -1, 0)
    ensures ParserInv(cs, -1, 0, ParserState([], None, map[], None, map[]))
  {
    assert cs[..0] == [];
  }

  lemma {:induction false} StepHeader(cs: seq<string>, h: int, k: nat, st: ParserState)
    requires k < |cs| && OpenAt(cs, h, k) && ParserInv(cs, h, k, st) && IsHeader(cs[k])
    ensures OpenAt(cs, k, k + 1)
    ensures ParserInv(cs, k, k + 1,
              ParserState(st.profiles + EntryOf(st.section, st.keys), HeaderKind(Trim(cs[k])), map[], None, st.services))
  {
    hide Doc, Entries, Records, HeaderKind, IsHeader, EntryOf, Trim, ParserInv;
    FlushEntries(cs, h, k, st);
    HeaderRecords(cs, k, st.services);
    assert cs[k + 1..k + 1] == [];
    OpenedSection(cs, k, st.profiles + EntryOf(st.section, st.keys), st.services);
  }

  /** A section just opened. */
  lemma {:induction false} OpenedSection(cs: seq<string>, k: nat, profiles: seq<ProfileInfo>, services: map<string,
          ServicesEndpoints>)
    requires k < |cs| && OpenAt(cs, k, k + 1)
    requires profiles == Entries(Doc(cs[..k])) && Records(services, Doc(cs[..k + 1]))
    ensures ParserInv(cs, k, k + 1, ParserState(profiles, HeaderKind(Trim(cs[k])), map[], None, services))
  {
    hide Doc, Entries, Records, HeaderKind, IsHeader, Trim, OpenAt;
    assert cs[k + 1..k + 1] == [];
  }

  lemma {:induction false} OpenStep(cs: seq<string>, h: int, k: nat)
    requires k < |cs| && OpenAt(cs, h, k) && !IsHeader(cs[k])
    ensures OpenAt(cs, h, k + 1) && cs[h + 1..k + 1] == cs[h + 1..k] + [cs[k]]
  {
    hide IsHeader;
    assert cs[h + 1..k + 1] == cs[h + 1..k] + [cs[k]];
  }

  lemma {:induction false} StepServices(cs: seq<string>, h: int, k: nat, st: ParserState, es: seq<Endpoint>)
    requires k < |cs| && OpenAt(cs, h, k) && ParserInv(cs, h, k, st) && !IsHeader(cs[k])
    requires InServices(st.section) && es == LineEndpoints(cs[k], st.service)
    ensures OpenAt(cs, h, k + 1)
    ensures var name := Lower(st.section.value.name);
            ParserInv(cs, h, k + 1, st.(
              service := NextService(cs[k], st.service),
              services := if es == [] then st.services else st.services[name := Merge(Lookup(st.services, name), es)]))
  {
    hide Doc, Entries, Records, HeaderKind, IsHeader, LineEndpoints, NextService, Merge, Lookup;
    OpenStep(cs, h, k);
    var body := cs[h + 1..k];
    EndpointsConcat(body, [cs[k]], None);
    assert ServiceAfter([cs[k]], st.service) == ServiceAfter([], NextService(cs[k], st.service));
    if es == [] {
      KeepRecords(cs, h, k, st.services);
    } else {
      ServicesRecords(cs, h, k, st.section.value.name, es, st.services);
    }
  }

  lemma {:induction false} StepKey(cs: seq<string>, h: int, k: nat, st: ParserState)
    requires k < |cs| && OpenAt(cs, h, k) && ParserInv(cs, h, k, st) && !IsHeader(cs[k])
    requires !InServices(st.section)
    ensures OpenAt(cs, h, k + 1)
    ensures ParserInv(cs, h, k + 1, st.(keys := st.keys + LineKeys(cs[k])))
  {
    hide Doc, Entries, Records, HeaderKind, IsHeader, LineKeys, ServiceAfter, InServices, LineEndpoints;
    OpenStep(cs, h, k);
    var body := cs[h + 1..k];
    KeysConcat(body, [cs[k]]);
    assert Keys([cs[k]]) == LineKeys(cs[k]) + Keys([]) == LineKeys(cs[k]);
    KeepRecords(cs, h, k, st.services);
  }

  lemma {:induction false} StepSkip(cs: seq<string>, h: int, k: nat, st: ParserState)
    requires k < |cs| && OpenAt(cs, h, k) && ParserInv(cs, h, k, st) && IsSkipped(cs[k])
    ensures OpenAt(cs, h, k + 1) && ParserInv(cs, h, k + 1, st)
  {
    hide Doc, Entries, Records, HeaderKind, KeyValue;
    if InServices(st.section) {
      StepServices(cs, h, k, st, []);
    } else {
      StepKey(cs, h, k, st);
      assert st.keys + map[] == st.keys;
    }
  }

  lemma {:induction false} EntriesUnresolved(doc: seq<Section>)
    ensures forall p | p in Entries(doc) :: p.endpointUrl.None?
  {
    if doc != [] { EntriesUnresolved(doc[1..]); }
  }

  /** The parser reads the same from a line with and without its terminator. */
  lemma {:induction false} LineReads(c: string, open: Option<string>)
    ensures IsSkipped(Line(c)) == IsSkipped(c)
    ensures NextService(Line(c), open) == NextService(c, open)
    ensures LineEndpoints(Line(c), open) == LineEndpoints(c, open)
  {
    hide Trim, Line, KeyValue;
    TrimLine(c);
    IndentLine(c);
  }

  /** `parse_aws_config_str`. */
  method ParseAwsConfig(contents: string) returns (profiles: seq<ProfileInfo>)
    ensures profiles == Parse(contents)
  {
    hide Doc, Entries, Records, Chunks, KeyValue, SectionKindOf, Trim, OpenAt, ParserInv, EntryOf, NextService,
         LineEndpoints, Merge, Lookup;
    ghost var cs := Chunks(contents);
    var lines := Lines(contents);
    profiles := [];
    var services: map<string, ServicesEndpoints> := map[];
    var currentSection: Option<SectionKind> := None;
    var currentKeys: map<string, string> := map[];
    var currentService: Option<string> := None;
    ghost var h := -1;
    var k := 0;
    StartInv(cs);
    while k < |lines|
      invariant k <= |lines| && OpenAt(cs, h, k)
      invariant ParserInv(cs, h, k, ParserState(profiles, currentSection, currentKeys, currentService, services))
    {
      var line := lines[k];
      var trimmed := Trim(line);
      TrimLine(cs[k]);
      IndentLine(cs[k]);
      ghost var st := ParserState(profiles, currentSection, currentKeys, currentService, services);
      if trimmed == "" || trimmed[0] == '#' {
        StepSkip(cs, h, k, st);
      } else if trimmed[0] == '[' && trimmed[|trimmed| - 1] == ']' {
        StepHeader(cs, h, k, st);
        h := k;
        profiles := profiles + EntryOf(currentSection, currentKeys);
        currentSection := SectionKindOf(Trim(trimmed[1..|trimmed| - 1]));
        currentKeys := map[];
        currentService := None;
      } else if currentSection.Some? && currentSection.value.Services? {
        StepServices(cs, h, k, st, LineEndpoints(cs[k], currentService));
        LineReads(cs[k], currentService);
        currentService, services :=
          ParseServicesLine(line, currentSection.value.name, currentService, services);
      } else {
        StepKey(cs, h, k, st);
        var kv := KeyValue(trimmed);
        assert currentKeys + map[] == currentKeys;
        if kv.Some? {
          assert currentKeys + map[kv.value.0 := kv.value.1] == currentKeys[kv.value.0 := kv.value.1];
          currentKeys := currentKeys[kv.value.0 := kv.value.1];
        }
      }
      k := k + 1;
    }
    FlushEntries(cs, h, k, ParserState(profiles, currentSection, currentKeys, currentService, services));
    assert cs[..k] == cs;
    profiles := profiles + EntryOf(currentSection, currentKeys);
    profiles := ResolveProfiles(profiles, services, Doc(cs));
  }

  /** The closing loop: each referenced `[services]` section gives its profile the
      Secrets Manager endpoint, or else the SSM one. */
  method ResolveProfiles(profiles: seq<ProfileInfo>, services: map<string, ServicesEndpoints>,
          ghost doc: seq<Section>)
    returns (resolved: seq<ProfileInfo>)
    requires Records(services, doc)
    requires profiles == Entries(doc)
    ensures resolved == ResolveAll(profiles, doc)
  {
    hide Entries, EndpointsOf, Lower;
    EntriesUnresolved(doc);
    resolved := profiles;
    var i := 0;
    while i < |resolved|
      invariant i <= |resolved| == |profiles|
      invariant forall j | 0 <= j < i :: resolved[j] == Resolve(profiles[j], doc)
      invariant forall j | i <= j < |profiles| :: resolved[j] == profiles[j]
    {
      var profile := resolved[i];
      assert profile in profiles;
      if profile.services.Some? {
        var name := Lower(profile.services.value);
        assert Lookup(services, name) == Recording(EndpointsOf(doc, name));
        if name in services {
          var endpoints := services[name];
          profile := profile.(endpointUrl := if endpoints.secretsManager.Some? then endpoints.secretsManager else endpoints.ssm);
        }
      }
      resolved := resolved[i := profile];
      i := i + 1;
    }
  }
}

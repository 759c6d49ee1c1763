/** Recording an event: what reaches the store under every setting. */
module AuditRecord {
  import opened Text
  import opened Json
  import opened AuditTruncation
  import opened AuditRedaction
  import Decimal

  /** The foreign parts: reading and printing JSON (`valid` are the values reading
      can give), the redaction of texts, the fingerprint of a query. */
  datatype Toolkit = Toolkit(parse: string -> Option<Json>, show: Json -> string, valid: Json -> bool,
                             text: TextRedactor, fingerprint: string -> string)

  predicate IsObjectText(t: Toolkit, s: string) {
    t.parse(s).Some? && t.parse(s).value.Object?
  }

  /** `insert` of a map with unique keys. */
  function Insert(members: seq<(string, Json)>, key: string, value: Json): seq<(string, Json)> {
    if members == [] then [(key, value)]
    else if members[0].0 == key then [(key, value)] + members[1..]
    else [members[0]] + Insert(members[1..], key, value)
  }

  function Get(members: seq<(string, Json)>, key: string): Option<Json> {
    if members == [] then None else if members[0].0 == key then Some(members[0].1) else Get(members[1..], key)
  }

  /** The query replaced by its fingerprint and its size. */
  function Fingerprinted(members: seq<(string, Json)>, query: string, t: Toolkit): Json {
    var marked := Insert(members, "query", String("[FINGERPRINT:" + t.fingerprint(query) + "]"));
    Object(Insert(marked, "query_length", Number(Decimal.Print(ByteLength(query)))))
  }

  /** The value whose print is an envelope. */
  function EnvelopeValue(partial: string): Json {
    Object([("__truncated", Bool(true)), ("partial", String(partial))])
  }

  /** What is known of the foreign parts. Printing a valid value gives a text that
      reads as a valid value of its kind; redaction and fingerprints leave values
      valid; an envelope is the print of its value. */
  ghost predicate Sound(t: Toolkit) {
    && (forall s: string :: t.parse(s).Some? ==> t.valid(t.parse(s).value))
    && (forall v: Json :: t.valid(v) ==> t.parse(t.show(v)).Some? && (t.parse(t.show(v)).value.Object? <==> v.Object?))
    && (forall v: Json :: t.valid(v) ==> t.valid(Redact(v, true, t.text)))
    && (forall ms, q :: t.valid(Object(ms)) ==> t.valid(Fingerprinted(ms, q, t)))
    && (forall p :: t.valid(EnvelopeValue(p)) && t.show(EnvelopeValue(p)) == Envelope(p))
    && ZeroKeeps(t.text)
  }

  /** A printed value prints the same again after it is read. */
  ghost predicate Reprints(t: Toolkit) {
    forall v: Json :: t.valid(v) ==> t.parse(t.show(v)).Some? && t.show(t.parse(t.show(v)).value) == t.show(v)
  }

  // ---------------------------------------------------------------------
  // The stages
  // ---------------------------------------------------------------------

  datatype Settings = Settings(enabled: bool, captureQueryText: bool, redactSensitive: bool, maxDetailBytes: nat)

  /** The fields the stages touch; `passes` is the outcome of validation, `localUser`
      that the actor is the user of this machine. */
  datatype Event = Event(actorId: Option<string>, localUser: bool, passes: bool, detailsJson: Option<string>, errorMessage: Option<string>)

  datatype Outcome = Disabled(event: Event) | Refused | Stored(event: Event)

  /** `redact_json`. */
  function RedactJson(input: string, patterns: bool, t: Toolkit): (string, nat) {
    if input == "" then (input, 0)
    else if t.parse(input).Some? then
      var v := t.parse(input).value;
      (t.show(Redact(v, patterns, t.text)), Count(v, patterns, t.text))
    else if patterns then t.text(input)
    else (input, 0)
  }

  function RedactMessage(input: string, patterns: bool, t: Toolkit): (string, nat) {
    if input == "" || !patterns then (input, 0) else t.text(input)
  }

  /** `apply_redaction`: a result is written back only if something was redacted. */
  function ApplyRedaction(e: Event, t: Toolkit): Event {
    var details := match e.detailsJson
      case None => None
      case Some(d) => if RedactJson(d, true, t).1 > 0 then Some(RedactJson(d, true, t).0) else Some(d);
    var message := match e.errorMessage
      case None => None
      case Some(m) => if RedactMessage(m, true, t).1 > 0 then Some(RedactMessage(m, true, t).0) else Some(m);
    e.(detailsJson := details, errorMessage := message)
  }

  /** The same with every result written back. */
  function AlwaysRedacted(e: Event, t: Toolkit): Event {
    e.(detailsJson := if e.detailsJson.None? then None else Some(RedactJson(e.detailsJson.value, true, t).0),
       errorMessage := if e.errorMessage.None? then None else Some(RedactMessage(e.errorMessage.value, true, t).0))
  }

  /** `apply_query_fingerprint_static`. */
  function ApplyFingerprint(e: Event, t: Toolkit): Event {
    if e.detailsJson.None? || !IsObjectText(t, e.detailsJson.value) then e else
      var members := t.parse(e.detailsJson.value).value.members;
      match Get(members, "query")
      case Some(String(query)) => e.(detailsJson := Some(t.show(Fingerprinted(members, query, t))))
      case _ => e
  }

  const LOCAL_ACTOR_ID: string := "local"
  const UNKNOWN_ACTOR_ID: string := "unknown"

  /** `normalize_details_json`. */
  function Normalize(e: Event, t: Toolkit): Option<Event> {
    if e.detailsJson.None? then Some(e)
    else if !IsObjectText(t, e.detailsJson.value) then None
    else Some(e.(detailsJson := Some(t.show(t.parse(e.detailsJson.value).value))))
  }

  /** The event with its actor, and with the query replaced unless it is captured. */
  function Prepared(e: Event, s: Settings, t: Toolkit): Event {
    var named := if e.actorId.None? then e.(actorId := Some(if e.localUser then LOCAL_ACTOR_ID else UNKNOWN_ACTOR_ID)) else e;
    if s.captureQueryText then named else ApplyFingerprint(named, t)
  }

  /** `preprocess_event_for_storage`. */
  function Preprocess(e: Event, s: Settings, t: Toolkit): Event {
    var marked := Prepared(e, s, t);
    var redacted := if s.redactSensitive then ApplyRedaction(marked, t) else marked;
    redacted.(detailsJson := Limited(redacted.detailsJson, s.maxDetailBytes))
  }

  /** `record`. */
  function Record(e: Event, s: Settings, t: Toolkit): Outcome {
    if !s.enabled then Disabled(e)
    else match Normalize(e, t)
      case None => Refused
      case Some(n) => if n.passes then Stored(Preprocess(n, s, t)) else Refused
  }

  // ---------------------------------------------------------------------
  // What reaches the store
  // ---------------------------------------------------------------------

  /** The details are the text of a JSON object. */
  ghost predicate ObjectDetails(t: Toolkit, details: Option<string>) {
    details.Some? ==> IsObjectText(t, details.value)
  }

  /** They are in the form it is printed in. */
  ghost predicate Canonical(t: Toolkit, details: Option<string>) {
    details.Some? ==> IsObjectText(t, details.value) && t.show(t.parse(details.value).value) == details.value
  }

  lemma {:induction false} NormalizeObject(e: Event, t: Toolkit)
    requires Sound(t) && Normalize(e, t).Some?
    ensures ObjectDetails(t, Normalize(e, t).value.detailsJson)
    ensures Reprints(t) ==> Canonical(t, Normalize(e, t).value.detailsJson)
  {
    hide Redact, Fingerprinted, Envelope;
  }

  lemma {:induction false} FingerprintObject(e: Event, t: Toolkit)
    requires Sound(t) && ObjectDetails(t, e.detailsJson)
    ensures ObjectDetails(t, ApplyFingerprint(e, t).detailsJson)
    ensures Reprints(t) && Canonical(t, e.detailsJson) ==> Canonical(t, ApplyFingerprint(e, t).detailsJson)
  {
    hide Fingerprinted, Get, Redact, Envelope;
    if e.detailsJson.Some? {
      var v := t.parse(e.detailsJson.value).value;
      assert t.valid(v) && v == Object(v.members);
      match Get(v.members, "query") {
        case Some(String(query)) =>
          assert t.valid(Fingerprinted(v.members, query, t));
          FingerprintIsObject(v.members, query, t);
        case _ =>
      }
    }
  }

  lemma {:induction false} FingerprintIsObject(members: seq<(string, Json)>, query: string, t: Toolkit)
    ensures Fingerprinted(members, query, t).Object?
  {
  }

  lemma {:induction false} RedactKeepsKind(v: Json, patterns: bool, text: TextRedactor)
    ensures Redact(v, patterns, text).Object? <==> v.Object?
  {
  }

  lemma {:induction false} PreparedObject(e: Event, s: Settings, t: Toolkit)
    requires Sound(t) && ObjectDetails(t, e.detailsJson)
    ensures ObjectDetails(t, Prepared(e, s, t).detailsJson)
    ensures Reprints(t) && Canonical(t, e.detailsJson) ==> Canonical(t, Prepared(e, s, t).detailsJson)
    ensures Prepared(e, s, t).actorId.Some? && (e.actorId.Some? ==> Prepared(e, s, t).actorId == e.actorId)
    ensures Prepared(e, s, t).detailsJson.Some? == e.detailsJson.Some?
  {
    hide Sound, Reprints, ObjectDetails, Canonical, ApplyFingerprint;
    var named := if e.actorId.None? then e.(actorId := Some(if e.localUser then LOCAL_ACTOR_ID else UNKNOWN_ACTOR_ID)) else e;
    FingerprintObject(named, t);
    KeepsActor(named, t);
  }

  /** Writing back only what was changed is writing back everything: for a text
      that is JSON, exactly if it is printed as it is written. */
  lemma {:induction false} SkippingIsExact(d: string, t: Toolkit)
    requires ZeroKeeps(t.text) && RedactJson(d, true, t).1 == 0
    ensures RedactJson(d, true, t).0 == d
        <==> d == "" || t.parse(d).None? || t.show(t.parse(d).value) == d
  {
    hide Redact, Count;
    if d != "" && t.parse(d).Some? {
      ZeroCountKeeps(t.parse(d).value, true, t.text);
    }
  }

  /** If printed values print the same again, that is so of every event that reaches
      redaction. */
  lemma {:induction false} SkippingWritesTheSame(e: Event, s: Settings, t: Toolkit)
    requires Sound(t) && Reprints(t) && Normalize(e, t).Some?
    ensures var prepared := Prepared(Normalize(e, t).value, s, t);
            ApplyRedaction(prepared, t) == AlwaysRedacted(prepared, t)
  {
    hide Redact, Count, Fingerprinted, Envelope, RedactJson, Normalize, Prepared, Reprints;
    NormalizeObject(e, t);
    PreparedObject(Normalize(e, t).value, s, t);
    var prepared := Prepared(Normalize(e, t).value, s, t);
    if prepared.detailsJson.Some? && RedactJson(prepared.detailsJson.value, true, t).1 == 0 {
      SkippingIsExact(prepared.detailsJson.value, t);
    }
  }

  lemma {:induction false} RedactionObject(e: Event, t: Toolkit)
    requires Sound(t) && ObjectDetails(t, e.detailsJson)
    ensures ObjectDetails(t, ApplyRedaction(e, t).detailsJson)
  {
    hide Redact, Count, Fingerprinted, Envelope;
    if e.detailsJson.Some? && RedactJson(e.detailsJson.value, true, t).1 > 0 {
      var v := t.parse(e.detailsJson.value).value;
      RedactKeepsKind(v, true, t.text);
      assert t.valid(Redact(v, true, t.text));
    }
  }

  /** Under every setting a stored event has no details, or the text of a JSON object
      within the limit; it has no details only if it came without or the limit is
      under 33 bytes. It always names an actor. */
  lemma {:induction false} StoredDetails(e: Event, s: Settings, t: Toolkit)
    requires Sound(t) && Record(e, s, t).Stored?
    ensures var stored := Record(e, s, t).event;
            && stored.actorId.Some? && (e.actorId.Some? ==> stored.actorId == e.actorId)
            && (stored.detailsJson.Some? ==>
                  IsObjectText(t, stored.detailsJson.value) && ByteLength(stored.detailsJson.value) <= s.maxDetailBytes)
            && (stored.detailsJson.None? ==> e.detailsJson.None? || s.maxDetailBytes < MINIMAL)
  {
    hide Sound, Reprints, Canonical, ApplyFingerprint, ApplyRedaction, Envelope, Limited, IsObjectText, Prepared;
    NormalizeObject(e, t);
    var n := Normalize(e, t).value;
    PreparedObject(n, s, t);
    var marked := Prepared(n, s, t);
    RedactionObject(marked, t);
    KeepsActor(marked, t);
    var redacted := if s.redactSensitive then ApplyRedaction(marked, t) else marked;
    if redacted.detailsJson.Some? {
      LimitedMeaning(redacted.detailsJson.value, s.maxDetailBytes);
      if Limited(redacted.detailsJson, s.maxDetailBytes).Some? {
        LimitedObject(redacted.detailsJson.value, s.maxDetailBytes, t);
      }
    } else {
      LimitedNone(s.maxDetailBytes);
    }
  }

  lemma {:induction false} KeepsActor(e: Event, t: Toolkit)
    ensures ApplyFingerprint(e, t).actorId == e.actorId && ApplyRedaction(e, t).actorId == e.actorId
    ensures ApplyFingerprint(e, t).detailsJson.Some? == e.detailsJson.Some?
    ensures ApplyRedaction(e, t).detailsJson.Some? == e.detailsJson.Some?
  {
    hide RedactJson, RedactMessage, Fingerprinted, Get, IsObjectText;
  }

  lemma {:induction false} LimitedNone(maxBytes: nat)
    ensures Limited(None, maxBytes) == None
  {
  }

  lemma {:induction false} LimitedObject(d: string, maxBytes: nat, t: Toolkit)
    requires Sound(t) && IsObjectText(t, d) && Limited(Some(d), maxBytes).Some?
    ensures IsObjectText(t, Limited(Some(d), maxBytes).value)
  {
    hide Envelope, Truncated, Redact, Fingerprinted;
    if ByteLength(d) > maxBytes {
      var n := TruncatedFits(d, maxBytes, maxBytes);
      assert t.valid(EnvelopeValue(d[..n]));
    }
  }

  // ---------------------------------------------------------------------
  // What is known of the foreign parts can be met
  // ---------------------------------------------------------------------

  ghost function SampleShow(v: Json): string {
    if exists p :: v == EnvelopeValue(p) then
      var p :| v == EnvelopeValue(p);
      Envelope(p)
    else if v.Object? then "{}" else "0"
  }

  ghost function SampleParse(s: string): Option<Json> {
    if exists p :: s == Envelope(p) then
      var p :| s == Envelope(p);
      Some(EnvelopeValue(p))
    else if s == "{}" then Some(Object([])) else if s == "0" then Some(Number("0")) else None
  }

  lemma {:induction false} SampleShows(p: string)
    ensures SampleShow(EnvelopeValue(p)) == Envelope(p) && |Envelope(p)| > 2
  {
    var v := EnvelopeValue(p);
    forall q | EnvelopeValue(q) == v ensures q == p {
      assert EnvelopeValue(q).members[1].1 == v.members[1].1;
    }
  }

  lemma {:induction false} SampleReadsBack(v: Json)
    ensures var s := SampleShow(v);
            && SampleParse(s).Some? && (SampleParse(s).value.Object? <==> v.Object?)
            && SampleShow(SampleParse(s).value) == s
  {
    hide Envelope;
    forall p ensures SampleShow(EnvelopeValue(p)) == Envelope(p) && |Envelope(p)| > 2 { SampleShows(p); }
  }

  lemma {:induction false} SoundIsPossible() returns (t: Toolkit)
    ensures Sound(t) && Reprints(t)
  {
    hide Envelope, Redact, Fingerprinted, SampleShow, SampleParse;
    t := Toolkit(SampleParse, SampleShow, _ => true, s => (s, 0), s => s);
    forall v: Json
      ensures t.parse(t.show(v)).Some? && (t.parse(t.show(v)).value.Object? <==> v.Object?)
      ensures t.show(t.parse(t.show(v)).value) == t.show(v)
    {
      SampleReadsBack(v);
    }
    forall p ensures t.valid(EnvelopeValue(p)) && t.show(EnvelopeValue(p)) == Envelope(p) { SampleShows(p); }
  }
}

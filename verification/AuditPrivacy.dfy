/** What the details of a stored event say of the details it came with. */
module AuditPrivacy {
  import opened Text
  import opened Json
  import opened AuditTruncation
  import opened AuditRedaction
  import opened AuditRecord
  import Decimal

  /** A printed value reads as itself. */
  ghost predicate ReadsBack(t: Toolkit) {
    forall v: Json :: t.valid(v) ==> t.parse(t.show(v)) == Some(v)
  }

  function Names(members: seq<(string, Json)>): seq<string> {
    seq(|members|, i requires 0 <= i < |members| => members[i].0)
  }

  /** The text of the query in the details, if there is one. */
  function QueryText(v: Json): Option<string> {
    if v.Object? then match Get(v.members, "query") case Some(String(q)) => Some(q) case _ => None
    else None
  }

  // ---------------------------------------------------------------------
  // The fingerprint
  // ---------------------------------------------------------------------

  lemma {:induction false} InsertGets(members: seq<(string, Json)>, key: string, value: Json, other: string)
    ensures Get(Insert(members, key, value), other) == if other == key then Some(value) else Get(members, other)
    decreases |members|
  {
    if members != [] && members[0].0 != key {
      InsertGets(members[1..], key, value, other);
    }
  }

  lemma {:induction false} InsertNames(members: seq<(string, Json)>, key: string, value: Json)
    ensures Names(Insert(members, key, value)) == if Get(members, key).Some? then Names(members) else Names(members) + [key]
    decreases |members|
  {
    hide Names;
    NamesOf(members);
    NamesOf(Insert(members, key, value));
    if members == [] {
      NamesOf([]);
      assert Insert(members, key, value)[1..] == [];
    } else if members[0].0 != key {
      var rest := Insert(members[1..], key, value);
      InsertNames(members[1..], key, value);
      assert Insert(members, key, value)[1..] == rest;
    } else {
      assert Insert(members, key, value)[1..] == members[1..];
    }
  }

  lemma {:induction false} NamesOf(members: seq<(string, Json)>)
    ensures Names(members) == if members == [] then [] else [members[0].0] + Names(members[1..])
  {
  }

  /** `x` is `v` with the text of its query replaced: in its place the mark, next to it
      the size of the text in bytes, and every other member as it is. */
  ghost predicate Marked(v: Json, x: Json, query: string, t: Toolkit) {
    && v.Object? && x.Object?
    && Get(x.members, "query") == Some(String("[FINGERPRINT:" + t.fingerprint(query) + "]"))
    && Get(x.members, "query_length") == Some(Number(Decimal.Print(ByteLength(query))))
    && (forall key | key != "query" && key != "query_length" :: Get(x.members, key) == Get(v.members, key))
    && Names(x.members)
       == if Get(v.members, "query_length").Some? then Names(v.members) else Names(v.members) + ["query_length"]
  }

  lemma {:induction false} FingerprintMarks(v: Json, query: string, t: Toolkit)
    requires QueryText(v) == Some(query)
    ensures Marked(v, Fingerprinted(v.members, query, t), query, t)
  {
    hide Insert, Get, Names;
    var ms, mark := v.members, String("[FINGERPRINT:" + t.fingerprint(query) + "]");
    var size := Number(Decimal.Print(ByteLength(query)));
    var marked := Insert(ms, "query", mark);
    var both := Insert(marked, "query_length", size);
    assert "query" != "query_length" by { assert |"query"| == 5 && |"query_length"| == 12; }
    forall key ensures Get(both, key) == if key == "query_length" then Some(size) else if key == "query" then Some(mark) else Get(ms, key) {
      InsertGets(ms, "query", mark, key);
      InsertGets(marked, "query_length", size, key);
    }
    InsertNames(ms, "query", mark);
    InsertNames(marked, "query_length", size);
    InsertGets(ms, "query", mark, "query_length");
  }

  // ---------------------------------------------------------------------
  // The stages, on values
  // ---------------------------------------------------------------------

  /** The details after the fingerprint. */
  function MarkedValue(v: Json, s: Settings, t: Toolkit): Json {
    if s.captureQueryText || QueryText(v).None? then v else Fingerprinted(v.members, QueryText(v).value, t)
  }

  lemma {:induction false} NormalizedText(e: Event, t: Toolkit)
    requires Sound(t) && ReadsBack(t) && Normalize(e, t).Some? && e.detailsJson.Some?
    ensures var n, p := Normalize(e, t).value, t.parse(e.detailsJson.value);
            && p.Some? && p.value.Object? && t.valid(p.value)
            && n == e.(detailsJson := Some(t.show(p.value))) && t.parse(t.show(p.value)) == p
  {
    hide Redact, Fingerprinted, Envelope;
  }

  lemma {:induction false} PreparedValue(n: Event, v: Json, s: Settings, t: Toolkit)
    requires Sound(t) && ReadsBack(t) && v.Object? && t.valid(v) && n.detailsJson == Some(t.show(v))
    ensures var x := MarkedValue(v, s, t);
            && x.Object? && t.valid(x) && t.parse(t.show(x)) == Some(x)
            && Prepared(n, s, t).detailsJson == Some(t.show(x)) && Prepared(n, s, t).errorMessage == n.errorMessage
  {
    hide Redact, Envelope, Fingerprinted, Get;
    assert t.parse(t.show(v)) == Some(v);
    if !s.captureQueryText && QueryText(v).Some? {
      var q := QueryText(v).value;
      assert v == Object(v.members) && t.valid(Fingerprinted(v.members, q, t));
      FingerprintIsObject(v.members, q, t);
    }
  }

  lemma {:induction false} RedactedText(x: Json, t: Toolkit, e: Event)
    requires Sound(t) && t.parse(t.show(x)) == Some(x) && e.detailsJson == Some(t.show(x)) && t.show(x) != ""
    ensures ApplyRedaction(e, t).detailsJson == Some(t.show(Redact(x, true, t.text)))
  {
    hide Redact, Count, Envelope, Fingerprinted, RedactMessage;
    if Count(x, true, t.text) == 0 { ZeroCountKeeps(x, true, t.text); }
  }

  lemma {:induction false} NotEmpty(t: Toolkit, v: Json)
    requires Sound(t) && ReadsBack(t) && t.valid(v) && t.parse("").None?
    ensures t.show(v) != ""
  {
    hide Redact, Envelope, Fingerprinted;
  }

  /** Error messages: redacted whenever redaction is on. */
  function MessageAfter(m: Option<string>, redact: bool, t: Toolkit): Option<string> {
    if m.None? || !redact || m.value == "" then m else Some(t.text(m.value).0)
  }

  lemma {:induction false} RedactedMessage(e: Event, t: Toolkit)
    requires ZeroKeeps(t.text)
    ensures ApplyRedaction(e, t).errorMessage == MessageAfter(e.errorMessage, true, t)
  {
    hide RedactJson;
  }

  /** Under every setting, what is stored is the print of a value `w`, cut to the
      limit. Without capture the text of the query is not in it but its mark, with
      everything else kept; with capture it is the value that came. With redaction no
      sensitive key holds anything but the marker, and everything else is kept but
      for redacted texts; without, nothing is redacted. */
  lemma {:induction false} StoredValue(e: Event, s: Settings, t: Toolkit) returns (v: Json, x: Json, w: Json)
    requires Sound(t) && ReadsBack(t) && t.parse("").None? && Record(e, s, t).Stored? && e.detailsJson.Some?
    ensures t.parse(e.detailsJson.value) == Some(v) && v.Object? && x.Object? && w.Object?
    ensures Record(e, s, t).event.detailsJson == Limited(Some(t.show(w)), s.maxDetailBytes)
    ensures s.captureQueryText || QueryText(v).None? ==> x == v
    ensures !s.captureQueryText && QueryText(v).Some? ==> Marked(v, x, QueryText(v).value, t)
    ensures !s.redactSensitive ==> w == x
    ensures s.redactSensitive ==> Clean(w) && SameOutside(x, w, false, true, t.text)
  {
    hide Sound, ReadsBack, Redact, Envelope, Fingerprinted, Limited, Clean, SameOutside, QueryText, Prepared,
         ApplyRedaction, Marked;
    NormalizedText(e, t);
    v := t.parse(e.detailsJson.value).value;
    var n := Normalize(e, t).value;
    PreparedValue(n, v, s, t);
    x := MarkedValue(v, s, t);
    if !s.captureQueryText && QueryText(v).Some? { FingerprintMarks(v, QueryText(v).value, t); }
    w := if s.redactSensitive then Redact(x, true, t.text) else x;
    if s.redactSensitive {
      NotEmpty(t, x);
      RedactedText(x, t, Prepared(n, s, t));
      RedactedIsClean(x, true, t.text);
      RedactedKeepsRest(x, true, t.text);
      RedactKeepsKind(x, true, t.text);
    }
  }

  /** What else is stored: the message, redacted exactly if redaction is on, and the
      actor, named if none is given. An event without details has none. */
  lemma {:induction false} StoredRest(e: Event, s: Settings, t: Toolkit)
    requires Sound(t) && Record(e, s, t).Stored?
    ensures var stored := Record(e, s, t).event;
            && stored.errorMessage == MessageAfter(e.errorMessage, s.redactSensitive, t)
            && stored.actorId == (if e.actorId.Some? then e.actorId else Some(if e.localUser then "local" else "unknown"))
            && (e.detailsJson.None? ==> stored.detailsJson.None?)
  {
    hide Redact, Envelope, Fingerprinted, RedactJson, RedactMessage, ApplyRedaction, Get;
    var n := Normalize(e, t).value;
    var marked := Prepared(n, s, t);
    KeepsActor(marked, t);
    RedactedMessage(marked, t);
    LimitedNone(s.maxDetailBytes);
  }

  /** An enabled service refuses exactly the events that do not pass, or whose details
      are not the text of an object; a disabled one stores nothing. */
  lemma {:induction false} RefusedIff(e: Event, s: Settings, t: Toolkit)
    ensures !s.enabled ==> Record(e, s, t) == Disabled(e)
    ensures s.enabled ==>
              && !Record(e, s, t).Disabled?
              && (Record(e, s, t).Refused? <==> !e.passes || (e.detailsJson.Some? && !IsObjectText(t, e.detailsJson.value)))
  {
    hide Preprocess, IsObjectText;
  }

  // ---------------------------------------------------------------------
  // Such foreign parts are possible
  // ---------------------------------------------------------------------

  function Zeros(n: nat): string {
    seq(n, _ => '0')
  }

  function SampleValue(p: string, n: Option<nat>): Json {
    if n.None? then EnvelopeValue(p) else
      Object([("__truncated", Bool(true)), ("partial", String(p)), ("query", String("[FINGERPRINT:]")),
              ("query_length", Number(Decimal.Print(n.value)))])
  }

  function SampleText(p: string, n: Option<nat>): string {
    if n.None? then Envelope(p) else Zeros(n.value) + "1" + p
  }

  ghost predicate IsSample(v: Json) {
    exists p, n :: v == SampleValue(p, n)
  }

  ghost function PrintSample(v: Json): string {
    if IsSample(v) then
      var p, n :| v == SampleValue(p, n);
      SampleText(p, n)
    else ""
  }

  ghost function ReadSample(s: string): Option<Json> {
    if exists p, n :: s == SampleText(p, n) then
      var p, n :| s == SampleText(p, n);
      Some(SampleValue(p, n))
    else None
  }

  lemma {:induction false} ZerosRead(n: nat, p: string)
    ensures var s := Zeros(n) + "1" + p;
            |s| > n && s[n] == '1' && s[n + 1..] == p && forall k | 0 <= k < n :: s[k] == '0'
  {
  }

  lemma {:induction false} SameZeros(a: nat, b: nat, p: string, q: string)
    requires a <= b && Zeros(a) + "1" + p == Zeros(b) + "1" + q
    ensures a == b && p == q
  {
    hide Zeros;
    ZerosRead(a, p);
    ZerosRead(b, q);
  }

  lemma {:induction false} SameEnvelope(p: string, q: string)
    requires Envelope(p) == Envelope(q)
    ensures p == q
  {
    hide Escape;
    EscapeRoundTrip(p, "}");
    EscapeRoundTrip(q, "}");
    var a, b := Escape(p) + "\"" + "}", Escape(q) + "\"" + "}";
    var k := |Envelope(p)| - |a|;
    assert |Envelope(q)| - |b| == k;
    assert Envelope(p)[k..] == a && Envelope(q)[k..] == b;
  }

  lemma {:induction false} SameText(p: string, n: Option<nat>, q: string, m: Option<nat>)
    requires SampleText(p, n) == SampleText(q, m)
    ensures p == q && n == m
  {
    hide Envelope;
    EnvelopeStarts(p);
    EnvelopeStarts(q);
    if n.None? && m.None? {
      SameEnvelope(p, q);
    } else if n.Some? && m.Some? {
      if n.value <= m.value { SameZeros(n.value, m.value, p, q); } else { SameZeros(m.value, n.value, q, p); }
    } else {
      CountedStarts(p, if n.Some? then n.value else 0);
      CountedStarts(q, if m.Some? then m.value else 0);
    }
  }

  lemma {:induction false} EnvelopeStarts(p: string)
    ensures Envelope(p) != "" && Envelope(p)[0] == '{'
  {
  }

  lemma {:induction false} CountedStarts(p: string, n: nat)
    ensures Zeros(n) + "1" + p != "" && (Zeros(n) + "1" + p)[0] != '{'
  {
  }

  lemma {:induction false} SampleReads(p: string, n: Option<nat>)
    ensures ReadSample(SampleText(p, n)) == Some(SampleValue(p, n)) && SampleText(p, n) != ""
    ensures PrintSample(SampleValue(p, n)) != "" && ReadSample(PrintSample(SampleValue(p, n))) == Some(SampleValue(p, n))
  {
    hide SampleText, SampleValue;
    forall q, m | SampleText(q, m) == SampleText(p, n) ensures q == p && m == n { SameText(q, m, p, n); }
    TextNotEmpty(p, n);
    var v := SampleValue(p, n);
    var q, m :| v == SampleValue(q, m) && PrintSample(v) == SampleText(q, m);
    forall r, k | SampleText(r, k) == SampleText(q, m) ensures r == q && k == m { SameText(r, k, q, m); }
    TextNotEmpty(q, m);
  }

  lemma {:induction false} TextNotEmpty(p: string, n: Option<nat>)
    ensures SampleText(p, n) != ""
  {
  }

  lemma {:induction false} SensitiveForm(key: string)
    requires key in SENSITIVE_JSON_KEYS
    ensures key != "" && key[0] != '_' && key[0] != 'q' && (|key| == 7 ==> key[0] != 'p')
  {
    var i :| 0 <= i < |SENSITIVE_JSON_KEYS| && SENSITIVE_JSON_KEYS[i] == key;
  }

  lemma {:induction false} PlainKey(key: string)
    requires key != "" && (key[0] == '_' || key[0] == 'q' || (|key| == 7 && key[0] == 'p'))
    ensures !IsSensitive(key)
  {
    forall k | k in SENSITIVE_JSON_KEYS
      ensures k != "" && k[0] != '_' && k[0] != 'q' && (|k| == 7 ==> k[0] != 'p')
    {
      SensitiveForm(k);
    }
    assert |Lower(key)| == |key| && Lower(key)[0] == key[0];
  }

  lemma {:induction false} PlainKeys()
    ensures !IsSensitive("__truncated") && !IsSensitive("partial") && !IsSensitive("query") && !IsSensitive("query_length")
  {
    hide IsSensitive;
    PlainKey("__truncated");
    PlainKey("partial");
    PlainKey("query");
    PlainKey("query_length");
  }

  const UNCHANGED: TextRedactor := s => (s, 0)

  lemma {:induction false} SampleRedacts(p: string, n: Option<nat>)
    ensures Redact(SampleValue(p, n), true, UNCHANGED) == SampleValue(p, n)
  {
    hide IsSensitive, RedactMembers;
    var v := SampleValue(p, n);
    PlainKeys();
    var ms := RedactMembers(v, |v.members|, true, UNCHANGED);
    forall i | 0 <= i < |v.members| ensures ms[i] == v.members[i] { MemberAt(v, |v.members|, true, UNCHANGED, i); }
    assert ms == v.members;
  }

  lemma {:induction false} InsertSkips(head: seq<(string, Json)>, rest: seq<(string, Json)>, key: string, value: Json)
    requires forall i | 0 <= i < |head| :: head[i].0 != key
    ensures Insert(head + rest, key, value) == head + Insert(rest, key, value)
    decreases |head|
  {
    if head == [] {
      assert head + rest == rest;
    } else {
      assert (head + rest)[1..] == head[1..] + rest;
      InsertSkips(head[1..], rest, key, value);
    }
  }

  lemma {:induction false} SampleMarks(p: string, n: Option<nat>, q: string, t: Toolkit)
    requires t.fingerprint(q) == ""
    ensures Fingerprinted(SampleValue(p, n).members, q, t) == SampleValue(p, Some(ByteLength(q)))
  {
    hide Insert;
    var head := [("__truncated", Bool(true)), ("partial", String(p))];
    var mark, size := ("query", String("[FINGERPRINT:]")), ("query_length", Number(Decimal.Print(ByteLength(q))));
    assert "[FINGERPRINT:" + "" + "]" == "[FINGERPRINT:]";
    assert |"query"| == 5 && |"query_length"| == 12 && |"__truncated"| == 11 && |"partial"| == 7;
    var rest := if n.None? then [] else [mark, ("query_length", Number(Decimal.Print(n.value)))];
    assert SampleValue(p, n).members == head + rest;
    InsertSkips(head, rest, "query", mark.1);
    var behind := if n.None? then [] else rest[1..];
    InsertFirst(rest, mark);
    InsertSkips(head + [mark], behind, "query_length", size.1);
    assert head + ([mark] + behind) == head + [mark] + behind;
    InsertFirst(behind, size);
  }

  /** In front, or to nothing. */
  lemma {:induction false} InsertFirst(rest: seq<(string, Json)>, m: (string, Json))
    requires rest != [] ==> rest[0].0 == m.0
    ensures Insert(rest, m.0, m.1) == [m] + if rest == [] then [] else rest[1..]
  {
  }

  lemma {:induction false} SampleEnvelope(p: string)
    ensures IsSample(EnvelopeValue(p)) && PrintSample(EnvelopeValue(p)) == Envelope(p)
  {
    hide Envelope;
    var v := EnvelopeValue(p);
    assert v == SampleValue(p, None);
    forall q, n | v == SampleValue(q, n) ensures q == p && n == None {
      assert |SampleValue(q, n).members| == 2;
      assert SampleValue(q, n).members[1].1 == v.members[1].1;
    }
  }

  /** What is asked of the foreign parts can be met. */
  lemma {:induction false} ReadsBackIsPossible() returns (t: Toolkit)
    ensures Sound(t) && ReadsBack(t) && t.parse("").None?
  {
    hide Envelope, Redact, Fingerprinted, SampleText, SampleValue, PrintSample, ReadSample;
    t := Toolkit(ReadSample, PrintSample, IsSample, UNCHANGED, _ => "");
    forall s: string ensures t.parse(s).Some? ==> t.valid(t.parse(s).value) { ReadIsSample(s); }
    forall v: Json | t.valid(v)
      ensures t.parse(t.show(v)) == Some(v) && t.valid(Redact(v, true, t.text)) && v.Object?
    {
      var p, n :| v == SampleValue(p, n);
      SampleReads(p, n);
      SampleRedacts(p, n);
      SampleIsObject(p, n);
    }
    forall ms: seq<(string, Json)>, q: string | t.valid(Object(ms)) ensures t.valid(Fingerprinted(ms, q, t)) {
      var p, n :| Object(ms) == SampleValue(p, n);
      SampleIsObject(p, n);
      SampleMarks(p, n, q, t);
    }
    forall p: string ensures t.valid(EnvelopeValue(p)) && t.show(EnvelopeValue(p)) == Envelope(p) { SampleEnvelope(p); }
    NothingReads();
  }

  lemma {:induction false} SampleIsObject(p: string, n: Option<nat>)
    ensures SampleValue(p, n).Object?
  {
  }

  lemma {:induction false} ReadIsSample(s: string)
    ensures ReadSample(s).Some? ==> IsSample(ReadSample(s).value)
  {
    hide SampleText, SampleValue;
  }

  lemma {:induction false} NothingReads()
    ensures ReadSample("").None?
  {
    hide SampleText;
    forall p, n ensures SampleText(p, n) != "" { TextNotEmpty(p, n); }
  }
}

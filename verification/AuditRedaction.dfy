/** Redaction of sensitive values in the details and messages of events. */
module AuditRedaction {
  import opened Text
  import opened Json

  const REDACTED: string := "[REDACTED]"

  const SENSITIVE_JSON_KEYS: seq<string> := [
    "password", "passwd", "secret", "token", "api_key", "apikey", "api_key_id", "access_key", "access_key_id", "secret_key",
    "session_token", "credentials", "private_key", "ssh_key", "authorization", "auth_token", "bearer", "refresh_token",
    "client_secret", "connection_string", "connection_uri", "database_url", "url", "uri", "passphrase"
  ]

  predicate IsSensitive(key: string) {
    key in SENSITIVE_JSON_KEYS || Lower(key) in SENSITIVE_JSON_KEYS
  }

  // ---------------------------------------------------------------------
  // Text
  // ---------------------------------------------------------------------

  /** A pattern: how often it occurs in a text, and the text with every occurrence
      replaced. */
  datatype Pattern = Pattern(count: string -> nat, replace: string -> string)

  /** The redaction of a text and the number of its redactions. */
  type TextRedactor = string -> (string, nat)

  /** Redactions of credentials in URLs first, then of the patterns in order. */
  function RedactText(input: string, uris: TextRedactor, patterns: seq<Pattern>): (string, nat) {
    if patterns == [] then uris(input) else
      var last := patterns[|patterns| - 1];
      var (text, n) := RedactText(input, uris, patterns[..|patterns| - 1]);
      if last.count(text) > 0 then (last.replace(text), n + last.count(text)) else (text, n)
  }

  method RedactSensitiveText(input: string, uris: TextRedactor, patterns: seq<Pattern>) returns (text: string,
          redactions: nat)
    ensures (text, redactions) == RedactText(input, uris, patterns)
  {
    var first := uris(input);
    text, redactions := first.0, first.1;
    var k := 0;
    while k < |patterns|
      invariant k <= |patterns|
      invariant (text, redactions) == RedactText(input, uris, patterns[..k])
    {
      assert patterns[..k + 1][..k] == patterns[..k];
      var matches := patterns[k].count(text);
      if matches > 0 {
        redactions := redactions + matches;
        text := patterns[k].replace(text);
      }
      k := k + 1;
    }
    assert patterns[..k] == patterns;
  }

  /** Zero redactions leave a text as it is. */
  ghost predicate ZeroKeeps(text: TextRedactor) {
    forall s: string :: text(s).1 == 0 ==> text(s).0 == s
  }

  /** The redactor keeps that law if the redactor of URLs does. */
  lemma {:induction false} RedactTextZeroKeeps(input: string, uris: TextRedactor, patterns: seq<Pattern>)
    requires ZeroKeeps(uris)
    ensures RedactText(input, uris, patterns).1 == 0 ==> RedactText(input, uris, patterns).0 == input
  {
    if patterns != [] {
      RedactTextZeroKeeps(input, uris, patterns[..|patterns| - 1]);
    }
  }

  /** Nothing is counted exactly if there is nothing to redact. */
  lemma {:induction false} ZeroIff(input: string, uris: TextRedactor, patterns: seq<Pattern>)
    ensures RedactText(input, uris, patterns).1 == 0
        <==> uris(input).1 == 0 && forall k | 0 <= k < |patterns| :: patterns[k].count(uris(input).0) == 0
    ensures RedactText(input, uris, patterns).1 == 0 ==> RedactText(input, uris, patterns).0 == uris(input).0
  {
    if patterns != [] {
      var n := |patterns| - 1;
      ZeroIff(input, uris, patterns[..n]);
      assert forall k | 0 <= k < n :: patterns[..n][k] == patterns[k];
    }
  }

  /** Replacing leaves no occurrence, and what one pattern writes is none of another. */
  ghost predicate Separate(patterns: seq<Pattern>) {
    && (forall k, s: string | 0 <= k < |patterns| :: patterns[k].count(patterns[k].replace(s)) == 0)
    && (forall j, k, s: string | 0 <= j < k < |patterns| :: patterns[j].count(s) == 0 ==> patterns[j].count(patterns[k].replace(s)) == 0)
  }

  /** Then no pattern of the list occurs in a redacted text. */
  lemma {:induction false} NothingSurvives(input: string, uris: TextRedactor, patterns: seq<Pattern>)
    requires Separate(patterns)
    ensures forall k | 0 <= k < |patterns| :: patterns[k].count(RedactText(input, uris, patterns).0) == 0
  {
    if patterns != [] {
      var n := |patterns| - 1;
      var before := patterns[..n];
      assert forall k | 0 <= k < n :: before[k] == patterns[k];
      NothingSurvives(input, uris, before);
      var text := RedactText(input, uris, before).0;
      forall k | 0 <= k < |patterns| ensures patterns[k].count(RedactText(input, uris, patterns).0) == 0 {
        if k < n { assert before[k].count(text) == 0; }
      }
    }
  }

  // ---------------------------------------------------------------------
  // Values
  // ---------------------------------------------------------------------

  /** The value under a key. Text patterns are looked for in texts under keys only. */
  function RedactMember(key: string, value: Json, patterns: bool, text: TextRedactor): Json
    decreases value, 2
  {
    if IsSensitive(key) then String(REDACTED)
    else if value.String? then (if patterns then String(text(value.text).0) else value)
    else Redact(value, patterns, text)
  }

  function RedactMembers(value: Json, n: nat, patterns: bool, text: TextRedactor): (ms: seq<(string, Json)>)
    requires value.Object? && n <= |value.members|
    ensures |ms| == n
    decreases value, 0, n
  {
    if n == 0 then [] else
      var (key, v) := value.members[n - 1];
      RedactMembers(value, n - 1, patterns, text) + [(key, RedactMember(key, v, patterns, text))]
  }

  function RedactItems(value: Json, n: nat, patterns: bool, text: TextRedactor): (vs: seq<Json>)
    requires value.Array? && n <= |value.items|
    ensures |vs| == n
    decreases value, 0, n
  {
    if n == 0 then [] else RedactItems(value, n - 1, patterns, text) + [Redact(value.items[n - 1], patterns, text)]
  }

  /** `redact_json_value`. */
  function Redact(value: Json, patterns: bool, text: TextRedactor): Json
    decreases value, 1
  {
    match value
    case Object(members) => Object(RedactMembers(value, |members|, patterns, text))
    case Array(items) => Array(RedactItems(value, |items|, patterns, text))
    case _ => value
  }

  /** What the counter gains. A redaction in a text counts twice. */
  function MemberCount(key: string, value: Json, patterns: bool, text: TextRedactor): nat
    decreases value, 2
  {
    if IsSensitive(key) then 1
    else if value.String? then (if patterns then 2 * text(value.text).1 else 0)
    else Count(value, patterns, text)
  }

  function MembersCount(value: Json, n: nat, patterns: bool, text: TextRedactor): nat
    requires value.Object? && n <= |value.members|
    decreases value, 0, n
  {
    if n == 0 then 0 else
      var (key, v) := value.members[n - 1];
      MembersCount(value, n - 1, patterns, text) + MemberCount(key, v, patterns, text)
  }

  function ItemsCount(value: Json, n: nat, patterns: bool, text: TextRedactor): nat
    requires value.Array? && n <= |value.items|
    decreases value, 0, n
  {
    if n == 0 then 0 else ItemsCount(value, n - 1, patterns, text) + Count(value.items[n - 1], patterns, text)
  }

  function Count(value: Json, patterns: bool, text: TextRedactor): nat
    decreases value, 1
  {
    match value
    case Object(members) => MembersCount(value, |members|, patterns, text)
    case Array(items) => ItemsCount(value, |items|, patterns, text)
    case _ => 0
  }

  /** The recursion with its counter. */
  method RedactJsonValue(value: Json, patterns: bool, text: TextRedactor, count: nat) returns (redacted: Json,
          count': nat)
    ensures redacted == Redact(value, patterns, text)
    ensures count' == count + Count(value, patterns, text)
    decreases value
  {
    hide IsSensitive;
    count' := count;
    match value {
      case Object(members) =>
        var newMembers := [];
        var k := 0;
        while k < |members|
          invariant k <= |members|
          invariant newMembers == RedactMembers(value, k, patterns, text)
          invariant count' == count + MembersCount(value, k, patterns, text)
        {
          var (key, v) := members[k];
          if IsSensitive(key) {
            count' := count' + 1;
            newMembers := newMembers + [(key, String(REDACTED))];
          } else if v.String? {
            if patterns {
              var (redactedText, redactions) := text(v.text);
              count' := count' + redactions;
              count' := count' + redactions;
              newMembers := newMembers + [(key, String(redactedText))];
            } else {
              newMembers := newMembers + [(key, v)];
            }
          } else {
            var inner;
            inner, count' := RedactJsonValue(v, patterns, text, count');
            newMembers := newMembers + [(key, inner)];
          }
          k := k + 1;
        }
        redacted := Object(newMembers);
      case Array(items) =>
        var newItems := [];
        var k := 0;
        while k < |items|
          invariant k <= |items|
          invariant newItems == RedactItems(value, k, patterns, text)
          invariant count' == count + ItemsCount(value, k, patterns, text)
        {
          var inner;
          inner, count' := RedactJsonValue(items[k], patterns, text, count');
          newItems := newItems + [inner];
          k := k + 1;
        }
        redacted := Array(newItems);
      case _ =>
        redacted := value;
    }
  }

  /** A key is sensitive exactly if it is one of the list, in any case of letters. */
  lemma {:induction false} SensitiveIff(key: string)
    ensures IsSensitive(key) <==> exists k | k in SENSITIVE_JSON_KEYS :: EqIgnoreCase(k, key)
  {
    hide Lower;
    forall k | k in SENSITIVE_JSON_KEYS ensures Lower(k) == k { SensitiveIsLower(k); }
    if key in SENSITIVE_JSON_KEYS { assert EqIgnoreCase(key, key); }
    if Lower(key) in SENSITIVE_JSON_KEYS { assert EqIgnoreCase(Lower(key), key); }
  }

  lemma {:induction false} SensitiveIsLower(k: string)
    requires k in SENSITIVE_JSON_KEYS
    ensures Lower(k) == k
  {
    var i :| 0 <= i < |SENSITIVE_JSON_KEYS| && SENSITIVE_JSON_KEYS[i] == k;
    AllSmall(i);
    assert Lower(k) == k;
  }

  lemma {:induction false} AllSmall(i: nat)
    requires i < |SENSITIVE_JSON_KEYS|
    ensures Small(SENSITIVE_JSON_KEYS[i])
  {
    hide Small;
    if i < 12 { FirstSmall(i); } else { LastSmall(i); }
  }

  /** No capital letter. */
  predicate Small(k: string) {
    forall j | 0 <= j < |k| :: !('A' <= k[j] <= 'Z')
  }

  lemma {:induction false} FirstSmall(i: nat)
    requires i < 12
    ensures Small(SENSITIVE_JSON_KEYS[i])
  {
  }

  lemma {:induction false} LastSmall(i: nat)
    requires 12 <= i < |SENSITIVE_JSON_KEYS|
    ensures Small(SENSITIVE_JSON_KEYS[i])
  {
  }

  // ---------------------------------------------------------------------
  // What redaction guarantees
  // ---------------------------------------------------------------------

  /** At every depth a sensitive key holds the marker. */
  predicate Clean(v: Json) {
    match v
    case Object(members) =>
      forall i | 0 <= i < |members| :: if IsSensitive(members[i].0) then members[i].1 == String(REDACTED) else Clean(members[i].1)
    case Array(items) => forall i | 0 <= i < |items| :: Clean(items[i])
    case _ => true
  }

  /** `w` is `v` outside the values of sensitive keys: the same keys in the same
      order, the same lengths, the same leaves. Only a text right under a key is
      changed by the redactor of texts, and only if `patterns`. */
  predicate SameOutside(v: Json, w: Json, underKey: bool, patterns: bool, text: TextRedactor) {
    match v
    case Object(members) =>
      && w.Object? && |w.members| == |members|
      && forall i | 0 <= i < |members| ::
           && w.members[i].0 == members[i].0
           && (!IsSensitive(members[i].0) ==> SameOutside(members[i].1, w.members[i].1, true, patterns, text))
    case Array(items) =>
      && w.Array? && |w.items| == |items|
      && forall i | 0 <= i < |items| :: SameOutside(items[i], w.items[i], false, patterns, text)
    case String(s) => w == if underKey && patterns then String(text(s).0) else v
    case _ => v == w
  }

  /** Every text of `v` outside the values of sensitive keys is redacted in `w`. */
  predicate Full(v: Json, w: Json, text: TextRedactor) {
    match v
    case Object(members) =>
      && w.Object? && |w.members| == |members|
      && forall i | 0 <= i < |members| :: !IsSensitive(members[i].0) ==> Full(members[i].1, w.members[i].1, text)
    case Array(items) => w.Array? && |w.items| == |items| && forall i | 0 <= i < |items| :: Full(items[i], w.items[i], text)
    case String(s) => w == String(text(s).0)
    case _ => true
  }

  /** The redactor of texts leaves alone every text that is in an array or by itself,
      outside the values of sensitive keys. */
  predicate Quiet(v: Json, text: TextRedactor) {
    match v
    case Object(members) =>
      forall i | 0 <= i < |members| :: !IsSensitive(members[i].0) && !members[i].1.String? ==> Quiet(members[i].1, text)
    case Array(items) => forall i | 0 <= i < |items| :: Quiet(items[i], text)
    case String(s) => text(s).0 == s
    case _ => true
  }

  lemma {:induction false} MemberAt(value: Json, n: nat, patterns: bool, text: TextRedactor, i: nat)
    requires value.Object? && i < n <= |value.members|
    ensures var (key, v) := value.members[i];
            RedactMembers(value, n, patterns, text)[i] == (key, RedactMember(key, v, patterns, text))
    decreases n
  {
    hide RedactMember;
    if i < n - 1 { MemberAt(value, n - 1, patterns, text, i); }
  }

  lemma {:induction false} ItemAt(value: Json, n: nat, patterns: bool, text: TextRedactor, i: nat)
    requires value.Array? && i < n <= |value.items|
    ensures RedactItems(value, n, patterns, text)[i] == Redact(value.items[i], patterns, text)
    decreases n
  {
    hide Redact;
    if i < n - 1 { ItemAt(value, n - 1, patterns, text, i); }
  }

  /** No sensitive key keeps its value, at any depth, whatever the flag. */
  lemma {:induction false} RedactedIsClean(v: Json, patterns: bool, text: TextRedactor)
    ensures Clean(Redact(v, patterns, text))
    decreases v
  {
    hide IsSensitive, RedactMembers, RedactItems;
    match v {
      case Object(members) =>
        var ms := RedactMembers(v, |members|, patterns, text);
        forall i | 0 <= i < |members| ensures if IsSensitive(ms[i].0) then ms[i].1 == String(REDACTED) else Clean(ms[i].1) {
          MemberAt(v, |members|, patterns, text, i);
          RedactedIsClean(members[i].1, patterns, text);
        }
      case Array(items) =>
        var vs := RedactItems(v, |items|, patterns, text);
        forall i | 0 <= i < |items| ensures Clean(vs[i]) {
          ItemAt(v, |items|, patterns, text, i);
          RedactedIsClean(items[i], patterns, text);
        }
      case _ =>
    }
  }

  /** Everything else stays, but for the texts right under keys. */
  lemma {:induction false} RedactedKeepsRest(v: Json, patterns: bool, text: TextRedactor)
    ensures SameOutside(v, Redact(v, patterns, text), false, patterns, text)
    decreases v
  {
    hide IsSensitive, RedactMembers, RedactItems;
    match v {
      case Object(members) =>
        var ms := RedactMembers(v, |members|, patterns, text);
        forall i | 0 <= i < |members|
          ensures ms[i].0 == members[i].0
          ensures !IsSensitive(members[i].0) ==> SameOutside(members[i].1, ms[i].1, true, patterns, text)
        {
          MemberAt(v, |members|, patterns, text, i);
          RedactedKeepsRest(members[i].1, patterns, text);
        }
      case Array(items) =>
        var vs := RedactItems(v, |items|, patterns, text);
        forall i | 0 <= i < |items| ensures SameOutside(items[i], vs[i], false, patterns, text) {
          ItemAt(v, |items|, patterns, text, i);
          RedactedKeepsRest(items[i], patterns, text);
        }
      case _ =>
    }
  }

  /** Every text outside the values of sensitive keys is redacted exactly if there is
      nothing to redact in the texts in arrays. */
  lemma {:induction false} FullIffQuiet(v: Json, text: TextRedactor)
    ensures Full(v, Redact(v, true, text), text) <==> Quiet(v, text)
    decreases v
  {
    hide IsSensitive, RedactMembers, RedactItems;
    match v {
      case Object(members) =>
        var ms := RedactMembers(v, |members|, true, text);
        forall i | 0 <= i < |members| && !IsSensitive(members[i].0)
          ensures Full(members[i].1, ms[i].1, text) <==> members[i].1.String? || Quiet(members[i].1, text)
        {
          MemberAt(v, |members|, true, text, i);
          FullIffQuiet(members[i].1, text);
        }
      case Array(items) =>
        var vs := RedactItems(v, |items|, true, text);
        forall i | 0 <= i < |items| ensures Full(items[i], vs[i], text) <==> Quiet(items[i], text) {
          ItemAt(v, |items|, true, text, i);
          FullIffQuiet(items[i], text);
        }
      case _ =>
    }
  }

  /** A text that would be redacted under a key is kept in an array. */
  lemma {:induction false} ArrayTextIsKept(secret: string, text: TextRedactor)
    requires text(secret).0 != secret
    ensures var v, w := Object([("hosts", Array([String(secret)]))]), Object([("hosts", String(secret))]);
            && Redact(v, true, text) == v && !Full(v, Redact(v, true, text), text)
            && Redact(w, true, text) != w && Full(w, Redact(w, true, text), text)
  {
    hide IsSensitive, RedactMembers, RedactItems;
    var inner := Array([String(secret)]);
    var v, w := Object([("hosts", inner)]), Object([("hosts", String(secret))]);
    assert !IsSensitive("hosts") by { HostsIsPlain(); }
    MemberAt(v, 1, true, text, 0);
    MemberAt(w, 1, true, text, 0);
    ItemAt(inner, 1, true, text, 0);
    assert RedactItems(inner, 1, true, text) == [String(secret)];
    assert RedactMembers(v, 1, true, text) == v.members;
    FullIffQuiet(v, text);
    assert !Quiet(v, text) by { assert !Quiet(inner, text) && v.members[0].1 == inner; }
  }

  lemma {:induction false} HostsIsPlain()
    ensures !IsSensitive("hosts")
  {
    assert Lower("hosts") == "hosts";
  }

  /** Keys alone redact nothing in a clean value, and a clean value is what they
      leave: redaction with the patterns off is idempotent. */
  lemma {:induction false} CleanStays(v: Json, text: TextRedactor)
    requires Clean(v)
    ensures Redact(v, false, text) == v
    decreases v
  {
    hide IsSensitive, RedactMembers, RedactItems;
    match v {
      case Object(members) =>
        forall i | 0 <= i < |members| ensures RedactMembers(v, |members|, false, text)[i] == members[i] {
          MemberAt(v, |members|, false, text, i);
          if !IsSensitive(members[i].0) {
            CleanStays(members[i].1, text);
          }
        }
      case Array(items) =>
        forall i | 0 <= i < |items| ensures RedactItems(v, |items|, false, text)[i] == items[i] {
          ItemAt(v, |items|, false, text, i);
          CleanStays(items[i], text);
        }
      case _ =>
    }
  }

  lemma {:induction false} RedactTwice(v: Json, patterns: bool, text: TextRedactor)
    ensures Redact(Redact(v, patterns, text), false, text) == Redact(v, patterns, text)
  {
    hide Redact, Clean;
    RedactedIsClean(v, patterns, text);
    CleanStays(Redact(v, patterns, text), text);
  }

  /** A count of zero means that nothing was changed. */
  lemma {:induction false} ZeroCountKeeps(v: Json, patterns: bool, text: TextRedactor)
    requires ZeroKeeps(text) && Count(v, patterns, text) == 0
    ensures Redact(v, patterns, text) == v
    decreases v
  {
    hide IsSensitive, RedactMembers, RedactItems, MembersCount, ItemsCount;
    match v {
      case Object(members) =>
        forall i | 0 <= i < |members| ensures RedactMembers(v, |members|, patterns, text)[i] == members[i] {
          MemberAt(v, |members|, patterns, text, i);
          MemberCountAt(v, |members|, patterns, text, i);
          if !members[i].1.String? && !IsSensitive(members[i].0) {
            ZeroCountKeeps(members[i].1, patterns, text);
          }
        }
      case Array(items) =>
        forall i | 0 <= i < |items| ensures RedactItems(v, |items|, patterns, text)[i] == items[i] {
          ItemAt(v, |items|, patterns, text, i);
          ItemCountAt(v, |items|, patterns, text, i);
          ZeroCountKeeps(items[i], patterns, text);
        }
      case _ =>
    }
  }

  lemma {:induction false} MemberCountAt(value: Json, n: nat, patterns: bool, text: TextRedactor, i: nat)
    requires value.Object? && i < n <= |value.members|
    ensures MemberCount(value.members[i].0, value.members[i].1, patterns, text) <= MembersCount(value, n, patterns, text)
    decreases n
  {
    hide MemberCount;
    if i < n - 1 { MemberCountAt(value, n - 1, patterns, text, i); }
  }

  lemma {:induction false} ItemCountAt(value: Json, n: nat, patterns: bool, text: TextRedactor, i: nat)
    requires value.Array? && i < n <= |value.items|
    ensures Count(value.items[i], patterns, text) <= ItemsCount(value, n, patterns, text)
    decreases n
  {
    hide Count;
    if i < n - 1 { ItemCountAt(value, n - 1, patterns, text, i); }
  }

  /** With the patterns off the count is zero exactly if there is no sensitive key
      outside the values of sensitive keys. */
  predicate NoSensitiveKeys(v: Json) {
    match v
    case Object(members) => forall i | 0 <= i < |members| :: !IsSensitive(members[i].0) && NoSensitiveKeys(members[i].1)
    case Array(items) => forall i | 0 <= i < |items| :: NoSensitiveKeys(items[i])
    case _ => true
  }

  lemma {:induction false} ZeroCountIff(v: Json, text: TextRedactor)
    ensures Count(v, false, text) == 0 <==> NoSensitiveKeys(v)
    decreases v
  {
    hide IsSensitive, MembersCount, ItemsCount;
    match v {
      case Object(members) =>
        forall i | 0 <= i < |members|
          ensures MemberCount(members[i].0, members[i].1, false, text) == 0 <==> !IsSensitive(members[i].0) && NoSensitiveKeys(members[i].1)
        {
          ZeroCountIff(members[i].1, text);
        }
        MembersCountZero(v, |members|, false, text);
      case Array(items) =>
        forall i | 0 <= i < |items| ensures Count(items[i], false, text) == 0 <==> NoSensitiveKeys(items[i]) {
          ZeroCountIff(items[i], text);
        }
        ItemsCountZero(v, |items|, false, text);
      case _ =>
    }
  }

  lemma {:induction false} MembersCountZero(value: Json, n: nat, patterns: bool, text: TextRedactor)
    requires value.Object? && n <= |value.members|
    ensures MembersCount(value, n, patterns, text) == 0
        <==> forall i | 0 <= i < n :: MemberCount(value.members[i].0, value.members[i].1, patterns, text) == 0
    decreases n
  {
    hide MemberCount;
    if n > 0 { MembersCountZero(value, n - 1, patterns, text); }
  }

  lemma {:induction false} ItemsCountZero(value: Json, n: nat, patterns: bool, text: TextRedactor)
    requires value.Array? && n <= |value.items|
    ensures ItemsCount(value, n, patterns, text) == 0 <==> forall i | 0 <= i < n :: Count(value.items[i], patterns, text) == 0
    decreases n
  {
    hide Count;
    if n > 0 { ItemsCountZero(value, n - 1, patterns, text); }
  }

  // ---------------------------------------------------------------------
  // The count, part by part
  // ---------------------------------------------------------------------

  lemma {:induction false} MembersCountPrefix(a: seq<(string, Json)>, b: seq<(string, Json)>, n: nat, patterns: bool,
          text: TextRedactor)
    requires n <= |a| + |b|
    ensures MembersCount(Object(a + b), n, patterns, text)
         == if n <= |a| then MembersCount(Object(a), n, patterns, text)
            else MembersCount(Object(a), |a|, patterns, text) + MembersCount(Object(b), n - |a|, patterns, text)
    decreases n
  {
    hide MemberCount;
    if n > 0 { MembersCountPrefix(a, b, n - 1, patterns, text); }
  }

  lemma {:induction false} ItemsCountPrefix(a: seq<Json>, b: seq<Json>, n: nat, patterns: bool, text: TextRedactor)
    requires n <= |a| + |b|
    ensures ItemsCount(Array(a + b), n, patterns, text)
         == if n <= |a| then ItemsCount(Array(a), n, patterns, text)
            else ItemsCount(Array(a), |a|, patterns, text) + ItemsCount(Array(b), n - |a|, patterns, text)
    decreases n
  {
    hide Count;
    if n > 0 { ItemsCountPrefix(a, b, n - 1, patterns, text); }
  }

  /** Parts are counted on their own and added up. A sensitive key counts once, whatever
      is under it; a redaction in a text right under another key counts twice, and one
      anywhere else not at all. */
  lemma {:induction false} CountAddsUp(a: seq<(string, Json)>, b: seq<(string, Json)>, vs: seq<Json>, ws: seq<Json>,
          key: string,
          v: Json, patterns: bool, text: TextRedactor)
    ensures Count(Object(a + b), patterns, text) == Count(Object(a), patterns, text) + Count(Object(b), patterns, text)
    ensures Count(Array(vs + ws), patterns, text) == Count(Array(vs), patterns, text) + Count(Array(ws), patterns, text)
    ensures Count(Array([v]), patterns, text) == Count(v, patterns, text)
    ensures IsSensitive(key) ==> Count(Object([(key, v)]), patterns, text) == 1
    ensures !IsSensitive(key) && !v.String? ==> Count(Object([(key, v)]), patterns, text) == Count(v, patterns, text)
    ensures !IsSensitive(key) && v.String? ==>
              Count(Object([(key, v)]), patterns, text) == if patterns then text(v.text).1 + text(v.text).1 else 0
    ensures v.String? ==> Count(v, patterns, text) == 0
  {
    hide IsSensitive, MembersCount, ItemsCount;
    MembersCountPrefix(a, b, |a| + |b|, patterns, text);
    ItemsCountPrefix(vs, ws, |vs| + |ws|, patterns, text);
    OneMember(key, v, patterns, text);
    OneItem(v, patterns, text);
    NoneCounted(a, vs, patterns, text);
    NoneCounted(b, ws, patterns, text);
  }

  lemma {:induction false} NoneCounted(a: seq<(string, Json)>, vs: seq<Json>, patterns: bool, text: TextRedactor)
    ensures MembersCount(Object(a), 0, patterns, text) == 0 && ItemsCount(Array(vs), 0, patterns, text) == 0
  {
  }

  lemma {:induction false} OneMember(key: string, v: Json, patterns: bool, text: TextRedactor)
    ensures MembersCount(Object([(key, v)]), 1, patterns, text) == MemberCount(key, v, patterns, text)
  {
    hide MemberCount;
  }

  lemma {:induction false} OneItem(v: Json, patterns: bool, text: TextRedactor)
    ensures ItemsCount(Array([v]), 1, patterns, text) == Count(v, patterns, text)
  {
    hide Count;
  }
}

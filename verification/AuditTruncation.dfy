/** Cutting the details of an event down to a size limit. */
module AuditTruncation {
  import opened Text
  import opened Json

  const PREFIX: string := "{\"__truncated\":true,\"partial\":\""
  const SUFFIX: string := "\"}"

  /** The size of the envelope around an empty text. */
  const MINIMAL: nat := 33

  /** The envelope as it is serialized. */
  function Envelope(partial: string): string {
    PREFIX + Escape(partial) + SUFFIX
  }

  /** The text an envelope holds, read by the rules for JSON strings. */
  function ReadEnvelope(s: string): Option<string> {
    if !(PREFIX <= s) then None else
      match Unescape(s[|PREFIX|..])
      case None => None
      case Some((partial, rest)) => if rest == "}" then Some(partial) else None
  }

  lemma {:induction false} EnvelopeReads(partial: string)
    ensures ReadEnvelope(Envelope(partial)) == Some(partial)
  {
    hide Unescape, Escape;
    EscapeRoundTrip(partial, "}");
    var inside := Escape(partial) + "\"" + "}";
    assert Envelope(partial) == PREFIX + inside;
    assert (PREFIX + inside)[|PREFIX|..] == inside;
  }

  lemma {:induction false} EnvelopeSize(partial: string)
    ensures ByteLength(Envelope(partial)) == MINIMAL + ByteLength(Escape(partial))
  {
    hide Escape, ByteLength;
    ByteLengthConcat(PREFIX + Escape(partial), SUFFIX);
    ByteLengthConcat(PREFIX, Escape(partial));
    AroundSize();
  }

  lemma {:induction false} AroundSize()
    ensures ByteLength(PREFIX) + ByteLength(SUFFIX) == MINIMAL
  {
    hide ByteLength;
    AsciiByteLength(PREFIX);
    AsciiByteLength(SUFFIX);
  }

  // ---------------------------------------------------------------------
  // The loop
  // ---------------------------------------------------------------------

  /** The last character that starts before byte `budget`. */
  function CutAt(s: string, budget: nat): (n: nat)
    ensures n <= |s| && (s != "" ==> n < |s|)
  {
    if s == "" || budget == 0 || |s| == 1 || Utf8Length(s[0]) >= budget then 0
    else 1 + CutAt(s[1..], budget - Utf8Length(s[0]))
  }

  /** `saturating_sub`. */
  function Minus(a: nat, b: nat): nat {
    if a < b then 0 else a - b
  }

  /** What the loop returns, entered with `budget`. */
  function Truncated(details: string, maxBytes: nat, budget: nat): string
    decreases budget
  {
    var serialized := Envelope(details[..CutAt(details, budget)]);
    if ByteLength(serialized) <= maxBytes then serialized
    else if budget == 0 then Envelope("")
    else Truncated(details, maxBytes, Minus(budget, ByteLength(serialized) - maxBytes + 1))
  }

  lemma {:induction false} CutAtFrom(s: string, budget: nat, k: nat, offset: nat)
    requires k < |s| && offset < budget
    ensures CutAt(s[k..], budget - offset) ==
              if k + 1 < |s| && offset + Utf8Length(s[k]) < budget then 1 + CutAt(s[k + 1..], budget - (offset + Utf8Length(s[k]))) else 0
  {
    assert s[k..][1..] == s[k + 1..];
  }

  /** The cut is the last character start below the budget, in bytes. */
  lemma {:induction false} CutIsLast(s: string, budget: nat)
    requires s != "" && budget > 0
    ensures var n := CutAt(s, budget);
            && ByteLength(s[..n]) < budget
            && forall m | n < m < |s| :: ByteLength(s[..m]) >= budget
    decreases |s|
  {
    hide CutAt, Utf8Length, ByteLength;
    var n := CutAt(s, budget);
    CutAtFrom(s, budget, 0, 0);
    assert s[0..] == s;
    EmptyBytes();
    assert s[..0] == "";
    if n > 0 {
      CutIsLast(s[1..], budget - Utf8Length(s[0]));
      PrefixBytes(s, n);
      forall m | n < m < |s| ensures ByteLength(s[..m]) >= budget {
        PrefixBytes(s, m);
      }
    } else {
      forall m | n < m < |s| ensures ByteLength(s[..m]) >= budget {
        PrefixBytes(s, m);
        CutNowhere(s, budget);
      }
    }
  }

  lemma {:induction false} EmptyBytes()
    ensures ByteLength("") == 0
  {
  }

  lemma {:induction false} PrefixBytes(s: string, m: nat)
    requires 0 < m <= |s|
    ensures ByteLength(s[..m]) == Utf8Length(s[0]) + ByteLength(s[1..][..m - 1])
  {
    hide Utf8Length;
    assert s[..m][1..] == s[1..][..m - 1];
  }

  lemma {:induction false} CutNowhere(s: string, budget: nat)
    requires |s| > 1 && budget > 0 && CutAt(s, budget) == 0
    ensures Utf8Length(s[0]) >= budget
  {
  }

  /** `char_indices().take_while(..).last()`. */
  method FindCut(s: string, budget: nat) returns (end: nat)
    ensures end == CutAt(s, budget)
    ensures s != "" && budget > 0 ==>
              end < |s| && ByteLength(s[..end]) < budget && forall m | end < m < |s| :: ByteLength(s[..m]) >= budget
  {
    hide CutAt, Utf8Length, ByteLength;
    end := 0;
    CutAtNone(s, budget);
    if s != "" && budget > 0 {
      CutIsLast(s, budget);
    }
    if s == "" || budget == 0 {
      return;
    }
    var offset: nat := 0;
    assert s[0..] == s;
    while end + 1 < |s| && offset + Utf8Length(s[end]) < budget
      invariant end < |s| && offset < budget
      invariant CutAt(s, budget) == end + CutAt(s[end..], budget - offset)
    {
      CutAtFrom(s, budget, end, offset);
      offset := offset + Utf8Length(s[end]);
      end := end + 1;
    }
    CutAtFrom(s, budget, end, offset);
  }

  lemma {:induction false} CutAtNone(s: string, budget: nat)
    ensures s == "" || budget == 0 ==> CutAt(s, budget) == 0
  {
  }

  method BuildTruncatedEnvelope(details: string, maxBytes: nat) returns (r: Option<string>)
    ensures r == if maxBytes < MINIMAL then None else Some(Truncated(details, maxBytes, maxBytes))
  {
    hide Envelope, CutAt, ByteLength;
    if maxBytes < MINIMAL {
      return None;
    }
    var budget := maxBytes;
    while true
      invariant Truncated(details, maxBytes, maxBytes) == Truncated(details, maxBytes, budget)
      decreases budget
    {
      var end := FindCut(details, budget);
      var serialized := Envelope(details[..end]);
      if ByteLength(serialized) <= maxBytes {
        return Some(serialized);
      }
      if budget == 0 {
        return Some(Envelope(""));
      }
      budget := Minus(budget, ByteLength(serialized) - maxBytes + 1);
    }
  }

  /** Whatever the limit of at least 33 bytes, the envelope keeps to it, and the text
      in it starts the details. */
  lemma {:induction false} TruncatedFits(details: string, maxBytes: nat, budget: nat) returns (n: nat)
    requires maxBytes >= MINIMAL
    ensures n <= |details| && Truncated(details, maxBytes, budget) == Envelope(details[..n])
    ensures ByteLength(Truncated(details, maxBytes, budget)) <= maxBytes
    decreases budget
  {
    hide Envelope, CutAt;
    n := CutAt(details, budget);
    var serialized := Envelope(details[..n]);
    if ByteLength(serialized) > maxBytes {
      if budget == 0 {
        CutAtNone(details, 0);
        assert details[..0] == "";
        EmptySize();
      } else {
        n := TruncatedFits(details, maxBytes, Minus(budget, ByteLength(serialized) - maxBytes + 1));
      }
    }
  }

  lemma {:induction false} EmptySize()
    ensures ByteLength(Envelope("")) == MINIMAL
  {
    hide Envelope;
    EnvelopeSize("");
  }

  // ---------------------------------------------------------------------
  // The limit on details
  // ---------------------------------------------------------------------

  /** `enforce_max_detail_bytes`, on the details of an event. */
  function Limited(details: Option<string>, maxBytes: nat): Option<string> {
    if details.None? || ByteLength(details.value) <= maxBytes then details
    else if maxBytes < MINIMAL then None
    else Some(Truncated(details.value, maxBytes, maxBytes))
  }

  method EnforceMaxDetailBytes(details: Option<string>, maxBytes: nat) returns (r: Option<string>)
    ensures r == Limited(details, maxBytes)
  {
    if details.None? || ByteLength(details.value) <= maxBytes {
      return details;
    }
    r := BuildTruncatedEnvelope(details.value, maxBytes);
  }

  /** Details that fit stay as they are. Details that do not fit are dropped exactly
      if the limit is under 33 bytes; else they become an envelope within the limit
      that reads back as a proper beginning of them. */
  lemma {:induction false} LimitedMeaning(details: string, maxBytes: nat)
    ensures var r := Limited(Some(details), maxBytes);
            && (ByteLength(details) <= maxBytes ==> r == Some(details))
            && (ByteLength(details) > maxBytes ==> (r.None? <==> maxBytes < MINIMAL))
            && (r.Some? ==> ByteLength(r.value) <= maxBytes)
            && (r.Some? && ByteLength(details) > maxBytes ==>
                  && ReadEnvelope(r.value).Some? && r.value == Envelope(ReadEnvelope(r.value).value)
                  && ReadEnvelope(r.value).value < details)
  {
    hide Envelope, CutAt, Truncated, ReadEnvelope;
    if ByteLength(details) > maxBytes >= MINIMAL {
      var n := TruncatedFits(details, maxBytes, maxBytes);
      EnvelopeReads(details[..n]);
      if n == |details| {
        assert details[..n] == details;
        EnvelopeSize(details);
        EscapeGrows(details);
      }
    }
  }

  lemma {:induction false} EscapeGrows(s: string)
    ensures ByteLength(Escape(s)) >= ByteLength(s)
  {
    hide EscapeChar, Utf8Length;
    if s != "" {
      EscapeGrows(s[1..]);
      ByteLengthConcat(EscapeChar(s[0]), Escape(s[1..]));
      EscapeCharSize(s[0]);
    }
  }

  lemma {:induction false} EscapeCharSize(c: char)
    ensures ByteLength(EscapeChar(c)) >= Utf8Length(c)
  {
    if EscapeChar(c) == [c] {
      assert ByteLength([c]) == Utf8Length(c) + ByteLength([c][1..]);
    }
  }
}

/** How much of the details truncation keeps. */
module AuditKept {
  import opened Text
  import opened Json
  import opened AuditTruncation

  // ---------------------------------------------------------------------
  // Sizes of beginnings
  // ---------------------------------------------------------------------

  /** The size of the first `n` characters, and the size they are written in. */
  function Bytes(d: string, n: nat): nat
    requires n <= |d|
  {
    ByteLength(d[..n])
  }

  function Written(d: string, n: nat): nat
    requires n <= |d|
  {
    ByteLength(Escape(d[..n]))
  }

  lemma {:induction false} EscapeConcat(a: string, b: string)
    ensures Escape(a + b) == Escape(a) + Escape(b)
  {
    hide EscapeChar;
    if a == "" {
      assert a + b == b && "" + Escape(b) == Escape(b);
    } else {
      assert (a + b)[1..] == a[1..] + b;
      EscapeConcat(a[1..], b);
      ConcatAssoc(EscapeChar(a[0]), Escape(a[1..]), Escape(b));
    }
  }

  /** The longer the beginning, the more its writing adds to it. */
  lemma {:induction false} WritingAdds(d: string, m: nat, n: nat)
    requires m <= n <= |d|
    ensures Bytes(d, m) <= Bytes(d, n) && Written(d, m) - Bytes(d, m) <= Written(d, n) - Bytes(d, n)
  {
    hide ByteLength, Escape;
    assert d[..n] == d[..m] + d[m..n];
    ByteLengthConcat(d[..m], d[m..n]);
    EscapeConcat(d[..m], d[m..n]);
    ByteLengthConcat(Escape(d[..m]), Escape(d[m..n]));
    EscapeGrows(d[m..n]);
  }

  lemma {:induction false} NothingWritten(d: string)
    ensures Bytes(d, 0) == 0 && Written(d, 0) == 0
  {
    assert d[..0] == "";
  }

  lemma {:induction false} NextBytes(d: string, n: nat)
    requires n < |d|
    ensures Bytes(d, n + 1) == Bytes(d, n) + Utf8Length(d[n])
  {
    hide Utf8Length, ByteLength;
    assert d[..n + 1] == d[..n] + [d[n]];
    ByteLengthConcat(d[..n], [d[n]]);
    OneChar(d[n]);
  }

  lemma {:induction false} OneChar(c: char)
    ensures ByteLength([c]) == Utf8Length(c)
  {
    assert [c][1..] == "";
  }

  /** A cut of longer details leaves one to four bytes of the budget. */
  lemma {:induction false} CutSlack(d: string, budget: nat)
    requires 0 < budget <= ByteLength(d)
    ensures var n := CutAt(d, budget);
            n < |d| && Bytes(d, n) < budget <= Bytes(d, n) + Utf8Length(d[n])
  {
    hide CutAt, Utf8Length, ByteLength;
    assert d != "" by { EmptyBytes(); }
    CutIsLast(d, budget);
    var n := CutAt(d, budget);
    NextBytes(d, n);
    assert d[..|d|] == d;
  }

  /** A smaller budget cuts no later. */
  lemma {:induction false} CutOrder(d: string, small: nat, large: nat)
    requires d != "" && small <= large
    ensures CutAt(d, small) <= CutAt(d, large)
  {
    hide CutAt, ByteLength;
    CutAtNone(d, small);
    if small > 0 {
      CutIsLast(d, small);
      CutIsLast(d, large);
    }
  }

  lemma {:induction false} CutIsZero(d: string, budget: nat)
    requires |d| > 1
    ensures CutAt(d, budget) == 0 <==> budget <= Utf8Length(d[0])
  {
    hide Utf8Length;
  }

  // ---------------------------------------------------------------------
  // The three rounds
  // ---------------------------------------------------------------------

  /** The budget of the round after one in which `n` characters did not fit. */
  function NextBudget(d: string, maxBytes: nat, budget: nat, n: nat): nat
    requires n <= |d| && MINIMAL + Written(d, n) > maxBytes
  {
    Minus(budget, MINIMAL + Written(d, n) - maxBytes + 1)
  }

  /** The budget of the second round. */
  function SecondBudget(d: string, maxBytes: nat): nat {
    Minus(2 * maxBytes, MINIMAL + 1 + Written(d, CutAt(d, maxBytes)))
  }

  /** How many characters the loop keeps. */
  function Kept(d: string, maxBytes: nat): (n: nat)
    ensures n <= |d|
  {
    var second := SecondBudget(d, maxBytes);
    var n := CutAt(d, second);
    if MINIMAL + Written(d, n) <= maxBytes then n else CutAt(d, NextBudget(d, maxBytes, second, n))
  }

  lemma {:induction false} Round(d: string, maxBytes: nat, budget: nat)
    ensures var n := CutAt(d, budget);
            && (MINIMAL + Written(d, n) <= maxBytes ==> Truncated(d, maxBytes, budget) == Envelope(d[..n]))
            && (MINIMAL + Written(d, n) > maxBytes && budget > 0 ==>
                  Truncated(d, maxBytes, budget) == Truncated(d, maxBytes, NextBudget(d, maxBytes, budget, n)))
  {
    hide Envelope, CutAt, Escape, ByteLength;
    EnvelopeSize(d[..CutAt(d, budget)]);
  }

  /** The first round never fits. */
  lemma {:induction false} FirstRound(d: string, maxBytes: nat)
    requires ByteLength(d) > maxBytes >= MINIMAL
    ensures Truncated(d, maxBytes, maxBytes) == Truncated(d, maxBytes, SecondBudget(d, maxBytes))
    ensures SecondBudget(d, maxBytes) < maxBytes
  {
    hide Truncated, CutAt, Bytes, Written, ByteLength;
    var n := CutAt(d, maxBytes);
    CutSlack(d, maxBytes);
    NothingWritten(d);
    WritingAdds(d, 0, n);
    Round(d, maxBytes, maxBytes);
  }

  /** After a second round that does not fit, the third does. */
  lemma {:induction false} ThirdRound(d: string, maxBytes: nat)
    requires ByteLength(d) > maxBytes >= MINIMAL
    requires MINIMAL + Written(d, CutAt(d, SecondBudget(d, maxBytes))) > maxBytes
    ensures var second := SecondBudget(d, maxBytes);
            var third := NextBudget(d, maxBytes, second, CutAt(d, second));
            second > 0 && MINIMAL + Written(d, CutAt(d, third)) <= maxBytes
  {
    hide CutAt, Bytes, Written, ByteLength, Utf8Length;
    var n1, second := CutAt(d, maxBytes), SecondBudget(d, maxBytes);
    var n2 := CutAt(d, second);
    assert second > 0 by {
      CutAtNone(d, second);
      NothingWritten(d);
    }
    FirstRound(d, maxBytes);
    CutSlack(d, maxBytes);
    CutSlack(d, second);
    CutOrder(d, second, maxBytes);
    WritingAdds(d, n2, n1);
    var third := NextBudget(d, maxBytes, second, n2);
    var n3 := CutAt(d, third);
    CutOrder(d, third, second);
    WritingAdds(d, n3, n2);
    CutAtNone(d, third);
    NothingWritten(d);
    if third > 0 {
      CutSlack(d, third);
    }
  }

  /** What the loop returns for details that do not fit, whatever they hold. */
  lemma {:induction false} LoopKeeps(d: string, maxBytes: nat)
    requires ByteLength(d) > maxBytes >= MINIMAL
    ensures Truncated(d, maxBytes, maxBytes) == Envelope(d[..Kept(d, maxBytes)])
  {
    hide Truncated, CutAt, Written, ByteLength, Envelope, SecondBudget, NextBudget;
    var second := SecondBudget(d, maxBytes);
    var n := CutAt(d, second);
    FirstRound(d, maxBytes);
    Round(d, maxBytes, second);
    if MINIMAL + Written(d, n) > maxBytes {
      ThirdRound(d, maxBytes);
      Round(d, maxBytes, NextBudget(d, maxBytes, second, n));
    }
  }

  // ---------------------------------------------------------------------
  // When nothing is kept
  // ---------------------------------------------------------------------

  /** The first character does not fit what is left of the budget after the first or
      the second round. */
  predicate OutOfBudget(d: string, maxBytes: nat)
    requires d != ""
  {
    var second := SecondBudget(d, maxBytes);
    var n := CutAt(d, second);
    || second <= Utf8Length(d[0])
    || (MINIMAL + Written(d, n) > maxBytes && NextBudget(d, maxBytes, second, n) <= Utf8Length(d[0]))
  }

  /** Of details that do not fit, nothing is kept exactly if their writing takes up the
      budget. */
  lemma {:induction false} NothingKeptIff(d: string, maxBytes: nat)
    requires ByteLength(d) > maxBytes >= MINIMAL
    ensures d != "" && (Truncated(d, maxBytes, maxBytes) == Envelope("") <==> OutOfBudget(d, maxBytes))
  {
    hide Truncated, CutAt, Written, ByteLength, Envelope, SecondBudget, NextBudget, Utf8Length;
    LongDetails(d, maxBytes);
    LoopKeeps(d, maxBytes);
    EnvelopeReads(d[..Kept(d, maxBytes)]);
    EnvelopeReads("");
    assert Truncated(d, maxBytes, maxBytes) == Envelope("") <==> Kept(d, maxBytes) == 0;
    var second := SecondBudget(d, maxBytes);
    var n := CutAt(d, second);
    CutIsZero(d, second);
    NothingWritten(d);
    if MINIMAL + Written(d, n) > maxBytes {
      CutIsZero(d, NextBudget(d, maxBytes, second, n));
    }
  }

  lemma {:induction false} LongDetails(d: string, maxBytes: nat)
    requires ByteLength(d) > maxBytes >= MINIMAL
    ensures |d| > 1
  {
    hide ByteLength;
    FourBytesEach(d);
  }

  lemma {:induction false} FourBytesEach(s: string)
    ensures ByteLength(s) <= 4 * |s|
  {
    hide Utf8Length;
    if s != "" { FourBytesEach(s[1..]); }
  }

  /** In ASCII the condition is on the size of the escaped beginning. */
  lemma {:induction false} AsciiNothingKeptIff(d: string, maxBytes: nat)
    requires IsAscii(d) && |d| > maxBytes >= MINIMAL
    ensures Truncated(d, maxBytes, maxBytes) == Envelope("") <==> 2 * maxBytes <= ByteLength(Escape(d[..maxBytes - 1])) + 35
  {
    hide Truncated, CutAt, Bytes, Written, ByteLength, Envelope;
    AsciiByteLength(d);
    NothingKeptIff(d, maxBytes);
    AsciiCut(d, maxBytes);
    assert Written(d, maxBytes - 1) == ByteLength(Escape(d[..maxBytes - 1])) by { WrittenIs(d, maxBytes - 1); }
    var second := SecondBudget(d, maxBytes);
    if second > 1 {
      FirstRound(d, maxBytes);
      AsciiCut(d, second);
      AsciiBytes(d, maxBytes - 1);
      AsciiBytes(d, second - 1);
      WritingAdds(d, second - 1, maxBytes - 1);
    }
  }

  lemma {:induction false} WrittenIs(d: string, n: nat)
    requires n <= |d|
    ensures Written(d, n) == ByteLength(Escape(d[..n]))
  {
  }

  lemma {:induction false} AsciiBytes(d: string, n: nat)
    requires IsAscii(d) && n <= |d|
    ensures Bytes(d, n) == n
  {
    AsciiByteLength(d[..n]);
  }

  lemma {:induction false} AsciiCut(s: string, budget: nat)
    requires IsAscii(s) && 0 < budget < |s|
    ensures CutAt(s, budget) == budget - 1 && Utf8Length(s[0]) == 1
  {
    hide CutAt, ByteLength;
    CutIsLast(s, budget);
    var n := CutAt(s, budget);
    AsciiByteLength(s[..n]);
    AsciiByteLength(s[..budget - 1]);
  }

  // ---------------------------------------------------------------------
  // Two kinds of details
  // ---------------------------------------------------------------------

  /** Text that is written in JSON as it is, one byte a character. */
  predicate IsPlain(s: string) {
    forall i | 0 <= i < |s| :: 32 <= s[i] as int < 0x80 && s[i] != '\"' && s[i] != '\\'
  }

  lemma {:induction false} PlainSize(s: string)
    requires IsPlain(s)
    ensures Escape(s) == s && ByteLength(s) == |s|
  {
    if s != "" { PlainSize(s[1..]); }
  }

  /** Of plain details that do not fit, all but 34 bytes of the limit are kept. */
  lemma {:induction false} PlainTextKept(details: string, maxBytes: nat)
    requires IsPlain(details) && |details| > maxBytes >= MINIMAL
    ensures Truncated(details, maxBytes, maxBytes) == Envelope(details[..Minus(maxBytes, 34)])
  {
    hide Envelope, CutAt, Escape, IsPlain;
    PlainStep(details, maxBytes);
    PlainStep(details, Minus(maxBytes, 33));
    assert Minus(maxBytes, ByteLength(Envelope(details[..maxBytes - 1])) - maxBytes + 1) == Minus(maxBytes, 33);
  }

  lemma {:induction false} PlainStep(details: string, budget: nat)
    requires IsPlain(details) && budget < |details|
    ensures CutAt(details, budget) == Minus(budget, 1)
    ensures ByteLength(Envelope(details[..Minus(budget, 1)])) == MINIMAL + Minus(budget, 1)
  {
    hide CutAt, Envelope;
    CutAtNone(details, budget);
    if budget > 0 {
      AsciiCut(details, budget);
    }
    EnvelopeSize(details[..Minus(budget, 1)]);
    PlainSize(details[..Minus(budget, 1)]);
  }

  function Quotes(m: nat): string {
    seq(m, _ => '\"')
  }

  /** An object with one text, of `m` quotes, as it is printed. */
  function QuotedDetails(m: nat): string {
    "{\"k\":\"" + Escape(Quotes(m)) + "\"" + "}"
  }

  /** Text that is written in two bytes a character. */
  predicate IsDoubled(s: string) {
    forall i | 0 <= i < |s| :: s[i] == '\"' || s[i] == '\\'
  }

  lemma {:induction false} DoubledSize(s: string)
    requires IsDoubled(s)
    ensures IsDoubled(Escape(s)) && |Escape(s)| == 2 * |s| && ByteLength(Escape(s)) == 2 * |s|
  {
    hide ByteLength;
    if s == "" {
      EmptyBytes();
    } else {
      DoubledSize(s[1..]);
      AsciiByteLength(Escape(s));
    }
  }

  lemma {:induction false} QuotedStart()
    ensures IsAscii("{\"k\":\"") && ByteLength(Escape("{\"k\":\"")) == 9
  {
    hide ByteLength;
    var written := "{\\\"k\\\":\\\"";
    assert Escape("{\"k\":\"") == written;
    AsciiByteLength(written);
  }

  /** Of an object with a text of quotes nothing is kept, whatever the limit. */
  lemma {:induction false} QuotesAreDropped(m: nat, maxBytes: nat)
    requires 2 * m + 8 > maxBytes >= MINIMAL
    ensures var d := QuotedDetails(m);
            && Unescape(d[6..]) == Some((Quotes(m), "}"))
            && ByteLength(d) == 2 * m + 8
            && Truncated(d, maxBytes, maxBytes) == Envelope("")
  {
    hide Truncated, CutAt, ByteLength, Envelope, Escape, Unescape;
    var start, inside, d := "{\"k\":\"", Escape(Quotes(m)), QuotedDetails(m);
    EscapeRoundTrip(Quotes(m), "}");
    assert d[6..] == inside + "\"" + "}";
    DoubledSize(Quotes(m));
    QuotedStart();
    assert d == start + inside + "\"" + "}";
    AsciiByteLength(d);
    AsciiNothingKeptIff(d, maxBytes);
    var rest := d[6..maxBytes - 1];
    assert d[..maxBytes - 1] == start + rest;
    assert IsDoubled(rest) by { assert forall i | 0 <= i < |rest| :: rest[i] == (inside + "\"")[i]; }
    DoubledSize(rest);
    EscapeConcat(start, rest);
    ByteLengthConcat(Escape(start), Escape(rest));
  }
}

/** JSON values, the way strings are written in JSON text, and text sizes in
    UTF-8 bytes. */
module Json {
  import opened Text

  /** Numbers are kept as they are written; members keep their order. */
  datatype Json =
    | Null
    | Bool(b: bool)
    | Number(literal: string)
    | String(text: string)
    | Array(items: seq<Json>)
    | Object(members: seq<(string, Json)>)

  // ---------------------------------------------------------------------
  // UTF-8 sizes
  // ---------------------------------------------------------------------

  function Utf8Length(c: char): (n: nat)
    ensures 1 <= n <= 4
  {
    var x := c as int;
    if x < 0x80 then 1 else if x < 0x800 then 2 else if x < 0x10000 then 3 else 4
  }

  function ByteLength(s: string): (n: nat)
    ensures n >= |s|
  {
    if s == "" then 0 else Utf8Length(s[0]) + ByteLength(s[1..])
  }

  lemma {:induction false} ByteLengthConcat(a: string, b: string)
    ensures ByteLength(a + b) == ByteLength(a) + ByteLength(b)
  {
    if a == "" {
      assert a + b == b;
    } else {
      assert (a + b)[1..] == a[1..] + b;
      ByteLengthConcat(a[1..], b);
    }
  }

  predicate IsAscii(s: string) {
    forall i | 0 <= i < |s| :: s[i] as int < 0x80
  }

  lemma {:induction false} AsciiByteLength(s: string)
    requires IsAscii(s)
    ensures ByteLength(s) == |s|
  {
    if s != "" { AsciiByteLength(s[1..]); }
  }

  // ---------------------------------------------------------------------
  // Strings in JSON text
  // ---------------------------------------------------------------------

  function HexDigit(n: nat): char
    requires n < 16
  {
    "0123456789abcdef"[n]
  }

  function HexValue(c: char): Option<nat> {
    if '0' <= c <= '9' then Some(c as int - '0' as int)
    else if 'a' <= c <= 'f' then Some(c as int - 'a' as int + 10)
    else if 'A' <= c <= 'F' then Some(c as int - 'A' as int + 10)
    else None
  }

  /** The number written by four hexadecimal digits. */
  function Hex4(s: string): Option<nat>
    requires |s| >= 4
  {
    var a, b, c, d := HexValue(s[0]), HexValue(s[1]), HexValue(s[2]), HexValue(s[3]);
    if a.None? || b.None? || c.None? || d.None? then None
    else Some(4096 * a.value + 256 * b.value + 16 * c.value + d.value)
  }

  function EscapeChar(c: char): string {
    if c == '\"' then "\\\""
    else if c == '\\' then "\\\\"
    else if c == '\U{08}' then "\\b"
    else if c == '\U{09}' then "\\t"
    else if c == '\U{0A}' then "\\n"
    else if c == '\U{0C}' then "\\f"
    else if c == '\U{0D}' then "\\r"
    else if c as int < 32 then "\\u00" + [HexDigit(c as int / 16), HexDigit(c as int % 16)]
    else [c]
  }

  /** The inside of a JSON string as it is written. */
  function Escape(s: string): string {
    if s == "" then "" else EscapeChar(s[0]) + Escape(s[1..])
  }

  /** One character of a JSON string, after section 7 of RFC 8259: the character and
      how much text it takes. */
  function ReadChar(s: string): Option<(char, nat)>
    requires s != ""
  {
    if s[0] != '\\' then (if s[0] as int < 32 then None else Some((s[0], 1)))
    else if |s| < 2 then None
    else match s[1]
      case '\"' => Some(('\"', 2))
      case '\\' => Some(('\\', 2))
      case '/' => Some(('/', 2))
      case 'b' => Some(('\U{08}', 2))
      case 'f' => Some(('\U{0C}', 2))
      case 'n' => Some(('\U{0A}', 2))
      case 'r' => Some(('\U{0D}', 2))
      case 't' => Some(('\U{09}', 2))
      case 'u' => ReadUnicode(s)
      case _ => None
  }

  function ReadUnicode(s: string): Option<(char, nat)> {
    if |s| < 6 || Hex4(s[2..]).None? then None else
      var x := Hex4(s[2..]).value;
      if x < 0xD800 || 0xE000 <= x < 0x10000 then Some((x as char, 6))
      else if |s| < 12 || s[6..8] != "\\u" || Hex4(s[8..]).None? then None else
        var y := Hex4(s[8..]).value;
        if 0xD800 <= x < 0xDC00 && 0xDC00 <= y < 0xE000
        then Some(((0x10000 + (x - 0xD800) * 1024 + (y - 0xDC00)) as char, 12)) else None
  }

  /** A JSON string up to its closing quote, and what follows the quote. */
  function Unescape(s: string): Option<(string, string)>
    decreases |s|
  {
    if s == "" then None
    else if s[0] == '\"' then Some(("", s[1..]))
    else match ReadChar(s)
      case None => None
      case Some((c, n)) =>
        if n > |s| || n == 0 then None else
          match Unescape(s[n..])
          case None => None
          case Some((text, rest)) => Some(([c] + text, rest))
  }

  lemma {:induction false} HexRoundTrip(n: nat)
    requires n < 16
    ensures HexValue(HexDigit(n)) == Some(n)
  {
  }

  lemma {:induction false} ReadEscaped(c: char, rest: string)
    ensures EscapeChar(c) != "" && EscapeChar(c)[0] != '\"'
    ensures ReadChar(EscapeChar(c) + rest) == Some((c, |EscapeChar(c)|))
  {
    var t := EscapeChar(c) + rest;
    if |EscapeChar(c)| == 6 {
      ReadHex(c, rest);
    } else if |EscapeChar(c)| == 2 {
      assert t[0] == '\\' && t[1] == EscapeChar(c)[1];
    } else {
      assert t[0] == c;
    }
  }

  lemma {:induction false} ReadHex(c: char, rest: string)
    requires c as int < 32 && |EscapeChar(c)| == 6
    ensures ReadChar(EscapeChar(c) + rest) == Some((c, 6))
  {
    hide HexDigit, HexValue;
    var t, x := EscapeChar(c) + rest, c as int;
    HexRoundTrip(x / 16);
    HexRoundTrip(x % 16);
    ZeroDigit();
    assert t[2..][0] == '0' && t[2..][1] == '0' && t[2..][2] == HexDigit(x / 16) && t[2..][3] == HexDigit(x % 16);
    assert t[0] == '\\' && t[1] == 'u';
  }

  lemma {:induction false} ZeroDigit()
    ensures HexValue('0') == Some(0)
  {
  }

  /** Reading what was written gives the string, and stops at the quote. */
  lemma {:induction false} EscapeRoundTrip(s: string, rest: string)
    ensures Unescape(Escape(s) + "\"" + rest) == Some((s, rest))
  {
    hide EscapeChar, ReadChar;
    if s == "" {
      assert Escape(s) + "\"" + rest == "\"" + rest && ("\"" + rest)[1..] == rest;
    } else {
      var c, tail := EscapeChar(s[0]), Escape(s[1..]) + "\"" + rest;
      var t := Escape(s) + "\"" + rest;
      assert t == c + tail;
      ReadEscaped(s[0], tail);
      EscapeRoundTrip(s[1..], rest);
      assert t[0] == c[0] && t[|c|..] == tail;
      assert [s[0]] + s[1..] == s;
    }
  }
}

/** Ids of 128 bits and the text they are written in. */
module Uuids {
  type Uuid = n: nat | n < 0x1_0000_0000_0000_0000_0000_0000_0000_0000

  const HEX_DIGITS: string := "0123456789abcdef"

  /** The last `k` hexadecimal digits of `n`. */
  function Hex(n: nat, k: nat): (s: string)
    ensures |s| == k
  {
    if k == 0 then "" else Hex(n / 16, k - 1) + [HEX_DIGITS[n % 16]]
  }

  /** Thirty-two digits in groups of 8, 4, 4, 4 and 12. */
  function UuidText(id: Uuid): (s: string)
    ensures |s| == 36
  {
    var d := Hex(id, 32);
    d[..8] + "-" + d[8..12] + "-" + d[12..16] + "-" + d[16..20] + "-" + d[20..]
  }

  ghost function Power16(k: nat): (p: nat)
    ensures p > 0
  {
    if k == 0 then 1 else 16 * Power16(k - 1)
  }

  lemma {:induction false} Powers()
    ensures Power16(32) == 0x1_0000_0000_0000_0000_0000_0000_0000_0000
  {
    assert Power16(8) == 0x1_0000_0000;
    assert Power16(16) == 0x1_0000_0000_0000_0000;
    assert Power16(24) == 0x1_0000_0000_0000_0000_0000_0000;
  }

  lemma {:induction false} SameDigit(a: nat, b: nat)
    requires a < 16 && b < 16 && HEX_DIGITS[a] == HEX_DIGITS[b]
    ensures a == b
  {
  }

  lemma {:induction false} HexIsInjective(a: nat, b: nat, k: nat)
    requires a < Power16(k) && b < Power16(k) && Hex(a, k) == Hex(b, k)
    ensures a == b
    decreases k
  {
    if k > 0 {
      var s, t := Hex(a, k), Hex(b, k);
      assert s[..k - 1] == Hex(a / 16, k - 1) && t[..k - 1] == Hex(b / 16, k - 1);
      assert s[k - 1] == HEX_DIGITS[a % 16] && t[k - 1] == HEX_DIGITS[b % 16];
      SameDigit(a % 16, b % 16);
      HexIsInjective(a / 16, b / 16, k - 1);
    }
  }

  /** Different ids have different texts. */
  lemma {:induction false} TextIsInjective(a: Uuid, b: Uuid)
    requires UuidText(a) == UuidText(b)
    ensures a == b
  {
    hide Hex, Power16;
    var d, e, s, t := Hex(a, 32), Hex(b, 32), UuidText(a), UuidText(b);
    Groups(a);
    Groups(b);
    assert d == e;
    Powers();
    HexIsInjective(a, b, 32);
  }

  lemma {:induction false} Groups(id: Uuid)
    ensures var s := UuidText(id);
            Hex(id, 32) == s[..8] + s[9..13] + s[14..18] + s[19..23] + s[24..]
  {
    hide Hex;
    var d, s := Hex(id, 32), UuidText(id);
    assert s[..8] == d[..8] && s[9..13] == d[8..12] && s[14..18] == d[12..16] && s[19..23] == d[16..20] && s[24..] == d[20..];
  }
}

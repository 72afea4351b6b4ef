/** 128-bit GUIDs and their textual form.

    A GUID is the 128-bit number `GUID::from_u128` is given: data1 is its top 32 bits,
    data2 and data3 the next two 16-bit groups, data4 the low 64 bits, big-endian.
    The windows crate's `Debug` implementation prints data1 as 8, data2 and data3 as 4
    and data4 as 2 + 6 bytes of upper-case hex, dash-separated, so the text is the 32
    hex digits of that number in groups 8-4-4-4-12. */
module Guids {
  import opened Base

  const GUID_SPACE: int := 0x1_0000_0000_0000_0000_0000_0000_0000_0000
  type Guid = x: int | 0 <= x < GUID_SPACE

  function Pow16(n: nat): (r: nat)
    ensures r >= 1
  {
    if n == 0 then 1 else 16 * Pow16(n - 1)
  }

  /** An upper-case hex digit, as `{:X}` prints them. */
  predicate IsHexDigit(c: char) {
    '0' <= c <= '9' || 'A' <= c <= 'F'
  }

  function HexChar(d: nat): (c: char)
    requires d < 16
    ensures IsHexDigit(c)
  {
    if d < 10 then ('0' as int + d) as char else ('A' as int + d - 10) as char
  }

  /** The value of one upper-case hex digit. */
  function HexValue(c: char): (d: nat)
    requires IsHexDigit(c)
    ensures d < 16 && HexChar(d) == c
  {
    if c <= '9' then c as int - '0' as int else c as int - 'A' as int + 10
  }

  /** The low `n` hex digits of `v`, most significant first, zero-padded
      (Rust's `{:0nX}` of a value below 16^n). */
  function HexDigits(v: nat, n: nat): (s: string)
    ensures |s| == n
    ensures forall i :: 0 <= i < |s| ==> IsHexDigit(s[i])
  {
    if n == 0 then [] else HexDigits(v / 16, n - 1) + [HexChar(v % 16)]
  }

  /** The number a string of hex digits denotes. */
  function HexNumber(s: string): nat
    requires forall i :: 0 <= i < |s| ==> IsHexDigit(s[i])
  {
    if |s| == 0 then 0 else HexNumber(s[..|s| - 1]) * 16 + HexValue(s[|s| - 1])
  }

  /** Reading back the digits printed for a value that fits recovers the value. */
  lemma {:induction false} HexRoundTrip(v: nat, n: nat)
    requires v < Pow16(n)
    ensures HexNumber(HexDigits(v, n)) == v
  {
    if n > 0 {
      var q, d := v / 16, v % 16;
      QuotientFits(v, Pow16(n - 1));
      HexRoundTrip(q, n - 1);
      var s := HexDigits(v, n);
      assert s == HexDigits(q, n - 1) + [HexChar(d)];
      assert s[..n - 1] == HexDigits(q, n - 1);
      assert HexValue(HexChar(d)) == d;
      assert HexNumber(s) == HexNumber(HexDigits(q, n - 1)) * 16 + d;
    }
  }

  lemma QuotientFits(v: nat, p: nat)
    requires v < 16 * p
    ensures v / 16 < p && v == (v / 16) * 16 + v % 16
  {
  }

  lemma Pow16At32()
    ensures Pow16(32) == GUID_SPACE
  {
    assert Pow16(8) == 0x1_0000_0000;
    assert Pow16(16) == Pow16(8) * Pow16(8) by { Pow16Add(8, 8); }
    assert Pow16(32) == Pow16(16) * Pow16(16) by { Pow16Add(16, 16); }
  }

  lemma {:induction false} Pow16Add(a: nat, b: nat)
    ensures Pow16(a + b) == Pow16(a) * Pow16(b)
  {
    if a > 0 {
      Pow16Add(a - 1, b);
      var x, y := Pow16(a - 1), Pow16(b);
      calc {
        Pow16(a + b);
        { assert a + b - 1 == (a - 1) + b; }
        16 * Pow16((a - 1) + b);
        16 * (x * y);
        { MulAssoc(16, x, y); }
        (16 * x) * y;
      }
    }
  }

  lemma MulAssoc(p: int, q: int, r: int)
    ensures p * (q * r) == (p * q) * r
  {
  }

  /** `format!("{g:?}")`: 8-4-4-4-12 upper-case hex digits. */
  function GuidText(g: Guid): (t: string)
    ensures |t| == 36
  {
    var d := HexDigits(g, 32);
    d[..8] + "-" + d[8..12] + "-" + d[12..16] + "-" + d[16..20] + "-" + d[20..]
  }

  /** Parses the 8-4-4-4-12 form back into a GUID; `None` for any other text. */
  function ParseGuidText(t: string): (r: Option<Guid>)
  {
    if |t| == 36 && t[8] == '-' && t[13] == '-' && t[18] == '-' && t[23] == '-' then
      var d := t[..8] + t[9..13] + t[14..18] + t[19..23] + t[24..];
      if forall i :: 0 <= i < |d| ==> IsHexDigit(d[i]) then
        var v := HexNumber(d);
        if v < GUID_SPACE then Some(v) else None
      else None
    else None
  }

  /** The debug text of a GUID identifies it: parsing it gives the GUID back. */
  lemma GuidTextRoundTrip(g: Guid)
    ensures ParseGuidText(GuidText(g)) == Some(g)
  {
    var d := HexDigits(g, 32);
    GroupsJoin(d);
    Pow16At32();
    HexRoundTrip(g, 32);
  }

  /** Taking the dashes out of the 8-4-4-4-12 grouping of 32 digits gives the digits. */
  lemma GroupsJoin(d: string)
    requires |d| == 32
    ensures var t := d[..8] + "-" + d[8..12] + "-" + d[12..16] + "-" + d[16..20] + "-" + d[20..];
      && |t| == 36 && t[8] == '-' && t[13] == '-' && t[18] == '-' && t[23] == '-'
      && t[..8] + t[9..13] + t[14..18] + t[19..23] + t[24..] == d
  {
    var t := d[..8] + "-" + d[8..12] + "-" + d[12..16] + "-" + d[16..20] + "-" + d[20..];
    assert t[..8] == d[..8];
    assert t[9..13] == d[8..12];
    assert t[14..18] == d[12..16];
    assert t[19..23] == d[16..20];
    assert t[24..] == d[20..];
    assert d[..8] + d[8..12] + d[12..16] + d[16..20] + d[20..] == d;
  }

  lemma GuidTextInjective(a: Guid, b: Guid)
    requires GuidText(a) == GuidText(b)
    ensures a == b
  {
    GuidTextRoundTrip(a);
    GuidTextRoundTrip(b);
  }
}

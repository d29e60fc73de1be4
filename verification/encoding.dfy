/**
 * Just enough of UTF-8 and Windows-1252 to say how a bullet character turns
 * into three Latin characters: encode as UTF-8, decode the bytes as
 * Windows-1252.
 */
module Encoding {
  /** A byte value. */
  type Byte = b: int | 0 <= b < 256

  /** The UTF-8 encoding of one Unicode scalar value. */
  function Utf8Char(c: char): (r: seq<Byte>)
    ensures 1 <= |r| <= 4
    ensures (c as int < 0x80) <==> |r| == 1
  {
    var n := c as int;
    if n < 0x80 then [n]
    else if n < 0x800 then [0xC0 + n / 0x40, 0x80 + n % 0x40]
    else if n < 0x1_0000 then [0xE0 + n / 0x1000, 0x80 + (n / 0x40) % 0x40, 0x80 + n % 0x40]
    else [0xF0 + n / 0x4_0000, 0x80 + (n / 0x1000) % 0x40, 0x80 + (n / 0x40) % 0x40, 0x80 + n % 0x40]
  }

  function Utf8(s: string): (r: seq<Byte>)
    ensures |r| >= |s|
  {
    if |s| == 0 then [] else Utf8Char(s[0]) + Utf8(s[1..])
  }

  /** Windows-1252 bytes 0x80 to 0x9F, as the WHATWG Encoding Standard maps them. */
  const HighControls: seq<int> := [
    0x20AC, 0x0081, 0x201A, 0x0192, 0x201E, 0x2026, 0x2020, 0x2021,
    0x02C6, 0x2030, 0x0160, 0x2039, 0x0152, 0x008D, 0x017D, 0x008F,
    0x0090, 0x2018, 0x2019, 0x201C, 0x201D, 0x2022, 0x2013, 0x2014,
    0x02DC, 0x2122, 0x0161, 0x203A, 0x0153, 0x009D, 0x017E, 0x0178]

  /** One byte read as Windows-1252; every other byte is its Latin-1 code point. */
  function Cp1252Char(b: Byte): (c: char)
    ensures (b < 0x80 || b >= 0xA0) ==> c as int == b
  {
    if 0x80 <= b < 0xA0 then HighControls[b - 0x80] as char else b as char
  }

  function Cp1252(bytes: seq<Byte>): (s: string)
    ensures |s| == |bytes|
    ensures forall i | 0 <= i < |bytes| :: s[i] == Cp1252Char(bytes[i])
  {
    seq(|bytes|, i requires 0 <= i < |bytes| => Cp1252Char(bytes[i]))
  }

  /** Reading UTF-8 back as Windows-1252 changes nothing for ASCII text. */
  lemma {:induction false} AsciiSurvives(s: string)
    requires forall i | 0 <= i < |s| :: s[i] as int < 0x80
    ensures Cp1252(Utf8(s)) == s
  {
    if |s| > 0 {
      AsciiSurvives(s[1..]);
      assert Utf8(s) == [s[0] as int] + Utf8(s[1..]);
      assert Cp1252(Utf8(s)) == [s[0]] + Cp1252(Utf8(s[1..]));
    }
  }
}

/** Bytes, and the UTF-8 encoding of text. */
module Utf8 {
  import opened Common

  newtype Byte = x: int | 0 <= x < 256

  type Bytes = seq<Byte>

  function Utf8Width(c: char): (n: nat)
    ensures 1 <= n <= 4
  {
    if c as int < 0x80 then 1 else if c as int < 0x800 then 2 else if c as int < 0x1_0000 then 3 else 4
  }

  // How many bytes a text takes.
  function Utf8Length(s: string): (n: nat)
    ensures n == |Encode(s)|
  {
    if s == [] then 0 else Utf8Width(s[0]) + Utf8Length(s[1..])
  }

  function EncodeChar(c: char): (b: Bytes)
    ensures |b| == Utf8Width(c)
  {
    var code := c as int;
    if code < 0x80 then [code as Byte]
    else if code < 0x800 then [(0xC0 + code / 64) as Byte, Trailing(code)]
    else if code < 0x10000 then [(0xE0 + code / 4096) as Byte, Trailing(code / 64), Trailing(code)]
    else [(0xF0 + code / 262144) as Byte, Trailing(code / 4096), Trailing(code / 64), Trailing(code)]
  }

  function Trailing(code: nat): Byte {
    (0x80 + code % 64) as Byte
  }

  function Encode(s: string): Bytes {
    if s == [] then [] else EncodeChar(s[0]) + Encode(s[1..])
  }

  // The code point at the head of a byte string, and how many bytes it takes.
  function DecodeHead(b: Bytes): Option<(int, nat)> {
    if b == [] then None
    else if b[0] < 0x80 then Some((b[0] as int, 1))
    else if 0xC0 <= b[0] < 0xE0 && |b| >= 2 then Some(((b[0] as int - 0xC0) * 64 + Low(b[1]), 2))
    else if 0xE0 <= b[0] < 0xF0 && |b| >= 3 then
      Some(((b[0] as int - 0xE0) * 4096 + Low(b[1]) * 64 + Low(b[2]), 3))
    else if 0xF0 <= b[0] && |b| >= 4 then
      Some(((b[0] as int - 0xF0) * 262144 + Low(b[1]) * 4096 + Low(b[2]) * 64 + Low(b[3]), 4))
    else None
  }

  function Low(b: Byte): int {
    b as int - 0x80
  }

  lemma DecodeEncoded(c: char, rest: Bytes)
    ensures DecodeHead(EncodeChar(c) + rest) == Some((c as int, Utf8Width(c)))
  {
    var code := c as int;
    if 0x800 <= code < 0x10000 {
      assert code / 4096 == code / 64 / 64;
    } else if 0x10000 <= code {
      assert code / 4096 == code / 64 / 64 && code / 262144 == code / 64 / 64 / 64;
    }
  }

  // Two texts never share their bytes.
  lemma {:induction false} EncodeInjective(s: string, t: string)
    requires Encode(s) == Encode(t)
    ensures s == t
  {
    if s == [] || t == [] {
    } else {
      DecodeEncoded(s[0], Encode(s[1..]));
      DecodeEncoded(t[0], Encode(t[1..]));
      assert s[0] == t[0];
      var width := |EncodeChar(s[0])|;
      assert Encode(s[1..]) == Encode(s)[width..] == Encode(t)[width..] == Encode(t[1..]);
      EncodeInjective(s[1..], t[1..]);
    }
  }
}

/**
  The names an archive stores (`TextEncoder` in apps/web/src/store/exportNotes.ts)
  and how they are read back (`nameOf` in apps/web/src/store/readZip.ts).

  A string is a sequence of Unicode scalar values. The decoder is the strict one,
  which refuses overlong forms and surrogates and which, like every `TextDecoder`
  not told otherwise, leaves out a byte order mark at the very start.
 */
module Utf8 {
  import opened Crc32
  import opened Options
  import opened Naming

  const BOM: char := '\U{feff}'

  function ToByte(n: nat): (b: Byte)
    requires n < 256
    ensures b as int == n
  {
    n as Byte
  }

  /** A continuation byte: six bits under `10`. */
  function Tail(n: nat): Byte {
    ToByte(128 + n % 64)
  }

  function EncodeChar(c: char): (bytes: seq<Byte>)
    ensures |bytes| == CharBytes(c)
  {
    var p := c as int;
    if p < 0x80 then [ToByte(p)]
    else if p < 0x800 then [ToByte(192 + p / 64), Tail(p)]
    else if p < 0x1_0000 then [ToByte(224 + p / 4096), Tail(p / 64), Tail(p)]
    else [ToByte(240 + p / 262144), Tail(p / 4096), Tail(p / 64), Tail(p)]
  }

  function Encode(text: string): (bytes: seq<Byte>)
    ensures |bytes| == Utf8Length(text)
  {
    if text == "" then [] else EncodeChar(text[0]) + Encode(text[1..])
  }

  predicate IsTail(b: Byte) {
    128 <= b as int < 192
  }

  datatype Read = Read(scalar: char, bytes: nat)

  predicate IsScalar(p: int) {
    0 <= p < 0xD800 || 0xE000 <= p < 0x11_0000
  }

  /** The first character of the bytes, and how many bytes it is; none where they are not UTF-8. */
  function DecodeChar(bytes: seq<Byte>): (read: Option<Read>)
    ensures read.Some? ==> 0 < read.value.bytes <= |bytes|
  {
    if bytes == [] then None
    else
      var a := bytes[0] as int;
      if a < 0x80 then Some(Read(a as char, 1))
      else if 0xC2 <= a < 0xE0 && |bytes| > 1 && IsTail(bytes[1]) then
        Some(Read(((a - 192) * 64 + (bytes[1] as int - 128)) as char, 2))
      else if 0xE0 <= a < 0xF0 && |bytes| > 2 && IsTail(bytes[1]) && IsTail(bytes[2]) then
        var p := (a - 224) * 4096 + (bytes[1] as int - 128) * 64 + (bytes[2] as int - 128);
        if p >= 0x800 && IsScalar(p) then Some(Read(p as char, 3)) else None
      else if 0xF0 <= a < 0xF5 && |bytes| > 3 && IsTail(bytes[1]) && IsTail(bytes[2]) && IsTail(bytes[3]) then
        var p := (a - 240) * 262144 + (bytes[1] as int - 128) * 4096
                 + (bytes[2] as int - 128) * 64 + (bytes[3] as int - 128);
        if p >= 0x1_0000 && IsScalar(p) then Some(Read(p as char, 4)) else None
      else None
  }

  function DecodeAll(bytes: seq<Byte>): Option<string>
    decreases |bytes|
  {
    if bytes == [] then Some("")
    else
      var first := DecodeChar(bytes);
      if first.None? then None
      else
        var rest := DecodeAll(bytes[first.value.bytes..]);
        if rest.None? then None else Some([first.value.scalar] + rest.value)
  }

  function WithoutBom(text: string): string {
    if text != "" && text[0] == BOM then text[1..] else text
  }

  /** `new TextDecoder('utf-8', { fatal: true }).decode`. */
  function Decode(bytes: seq<Byte>): Option<string> {
    var all := DecodeAll(bytes);
    if all.None? then None else Some(WithoutBom(all.value))
  }

  lemma ThreeDigits(p: nat)
    ensures p / 64 == (p / 4096) * 64 + (p / 64) % 64
    ensures p == (p / 4096) * 4096 + (p / 64) % 64 * 64 + p % 64
  {}

  lemma FourDigits(p: nat)
    ensures p == (p / 262144) * 262144 + (p / 4096) % 64 * 4096 + (p / 64) % 64 * 64 + p % 64
  {
    ThreeDigits(p);
    assert p / 4096 == (p / 262144) * 64 + (p / 4096) % 64;
  }

  lemma DecodeOfEncodedChar(c: char, rest: seq<Byte>)
    ensures DecodeChar(EncodeChar(c) + rest) == Some(Read(c, CharBytes(c)))
  {
    var p := c as int;
    if 0x800 <= p {
      if p < 0x1_0000 {
        DecodeThree(c, rest);
      } else {
        DecodeFour(c, rest);
      }
    }
  }

  lemma DecodeThree(c: char, rest: seq<Byte>)
    requires 0x800 <= c as int < 0x1_0000
    ensures DecodeChar(EncodeChar(c) + rest) == Some(Read(c, 3))
  {
    var p, bytes := c as int, EncodeChar(c) + rest;
    assert bytes[0] as int == 224 + p / 4096;
    assert bytes[1] as int == 128 + (p / 64) % 64;
    assert bytes[2] as int == 128 + p % 64;
    ThreeDigits(p);
  }

  lemma DecodeFour(c: char, rest: seq<Byte>)
    requires 0x1_0000 <= c as int
    ensures DecodeChar(EncodeChar(c) + rest) == Some(Read(c, 4))
  {
    var p, bytes := c as int, EncodeChar(c) + rest;
    assert bytes[0] as int == 240 + p / 262144;
    assert bytes[1] as int == 128 + (p / 4096) % 64;
    assert bytes[2] as int == 128 + (p / 64) % 64;
    assert bytes[3] as int == 128 + p % 64;
    FourDigits(p);
  }

  lemma {:induction false} DecodeAllOfEncoded(text: string)
    ensures DecodeAll(Encode(text)) == Some(text)
  {
    if text != "" {
      DecodeOfEncodedChar(text[0], Encode(text[1..]));
      DecodeAllOfEncoded(text[1..]);
      var bytes := Encode(text);
      assert bytes[CharBytes(text[0])..] == Encode(text[1..]);
      assert [text[0]] + text[1..] == text;
    }
  }

  /** A name is read back as it was, but for a byte order mark it starts with. */
  lemma DecodeOfEncoded(text: string)
    ensures Decode(Encode(text)) == Some(WithoutBom(text))
  {
    DecodeAllOfEncoded(text);
  }

  // ----- Names that are not UTF-8 ------------------------------------------------------

  /** What windows-1252 reads bytes 0x80 to 0x9f as. */
  const HIGH_CONTROLS: string :=
    "\U{20ac}\U{81}\U{201a}\U{192}\U{201e}\U{2026}\U{2020}\U{2021}" +
    "\U{2c6}\U{2030}\U{160}\U{2039}\U{152}\U{8d}\U{17d}\U{8f}" +
    "\U{90}\U{2018}\U{2019}\U{201c}\U{201d}\U{2022}\U{2013}\U{2014}" +
    "\U{2dc}\U{2122}\U{161}\U{203a}\U{153}\U{9d}\U{17e}\U{178}"

  function Windows1252(b: Byte): char {
    var n := b as int;
    if 0x80 <= n < 0xa0 then HIGH_CONTROLS[n - 0x80] else n as char
  }

  /** `nameOf`: as UTF-8 where the bytes read as that, and otherwise as windows-1252. */
  function NameOf(bytes: seq<Byte>): string {
    var text := Decode(bytes);
    if text.Some? then text.value else seq(|bytes|, i requires 0 <= i < |bytes| => Windows1252(bytes[i]))
  }
}

/**
 * The 'hex' encoding of Node's Buffer.toString: every byte becomes two
 * lower-case hexadecimal digits, high nibble first. HexDecode is the
 * reference inverse used to state what comparing two encodings means.
 */
module Hex {
  import opened Wrappers

  /** An octet. */
  type byte = b: int | 0 <= b < 256

  predicate IsHexDigit(c: char) {
    '0' <= c <= '9' || 'a' <= c <= 'f'
  }

  function DigitValue(c: char): (d: int)
    requires IsHexDigit(c)
    ensures 0 <= d < 16
  {
    if c <= '9' then c as int - '0' as int else c as int - 'a' as int + 10
  }

  function DigitChar(d: int): (c: char)
    requires 0 <= d < 16
    ensures IsHexDigit(c) && DigitValue(c) == d
  {
    if d < 10 then ('0' as int + d) as char else ('a' as int + d - 10) as char
  }

  lemma DigitCharOfValue(c: char)
    requires IsHexDigit(c)
    ensures DigitChar(DigitValue(c)) == c
  {
  }

  /** Two hex digits per byte, in order. */
  function HexEncode(bytes: seq<byte>): (s: string)
    ensures |s| == 2 * |bytes|
    ensures forall i :: 0 <= i < |s| ==> IsHexDigit(s[i])
  {
    if bytes == [] then []
    else [DigitChar(bytes[0] / 16), DigitChar(bytes[0] % 16)] + HexEncode(bytes[1..])
  }

  /** The bytes a string of lower-case hex digit pairs stands for; None for anything else. */
  function HexDecode(s: string): (r: Option<seq<byte>>)
    ensures r.Some? ==> 2 * |r.value| == |s|
  {
    if s == [] then Some([])
    else if |s| == 1 || !IsHexDigit(s[0]) || !IsHexDigit(s[1]) then None
    else
      match HexDecode(s[2..])
      case None => None
      case Some(rest) =>
        var b: byte := DigitValue(s[0]) * 16 + DigitValue(s[1]);
        Some([b] + rest)
  }

  lemma {:induction false} DecodeEncode(bytes: seq<byte>)
    ensures HexDecode(HexEncode(bytes)) == Some(bytes)
  {
    if bytes != [] {
      var s := HexEncode(bytes);
      assert s[2..] == HexEncode(bytes[1..]);
      DecodeEncode(bytes[1..]);
      assert [bytes[0]] + bytes[1..] == bytes;
    }
  }

  lemma {:induction false} EncodeDecode(s: string)
    requires HexDecode(s).Some?
    ensures HexEncode(HexDecode(s).value) == s
  {
    if s != [] {
      EncodeDecode(s[2..]);
      DigitCharOfValue(s[0]);
      DigitCharOfValue(s[1]);
      var bytes := HexDecode(s).value;
      assert bytes[1..] == HexDecode(s[2..]).value;
      assert s == [s[0], s[1]] + s[2..];
    }
  }

  /** A string decodes to some bytes exactly when it is their encoding. */
  lemma DecodeIffEncoding(s: string, bytes: seq<byte>)
    ensures HexDecode(s) == Some(bytes) <==> s == HexEncode(bytes)
  {
    DecodeEncode(bytes);
    if HexDecode(s).Some? {
      EncodeDecode(s);
    }
  }
}

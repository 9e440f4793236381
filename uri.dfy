/**
 * encodeURIComponent (ECMAScript 2022, section 19.2.6.4): every character outside
 * the unreserved set becomes the percent-escaped bytes of its UTF-8 encoding,
 * upper-case hex digits. Dafny characters are Unicode scalar values, so the
 * lone surrogates on which the JavaScript function throws cannot occur.
 */
module Uri {
  import opened Wrappers
  import opened Hex

  /** The characters encodeURIComponent leaves as they are. */
  predicate IsUnreserved(c: char) {
    || 'A' <= c <= 'Z' || 'a' <= c <= 'z' || '0' <= c <= '9'
    || c == '-' || c == '_' || c == '.' || c == '!' || c == '~' || c == '*' || c == '\'' || c == '(' || c == ')'
  }

  /** The characters that may appear in encodeURIComponent's output. */
  predicate IsEncodedChar(c: char) {
    IsUnreserved(c) || c == '%'
  }

  function UpperDigit(d: int): (c: char)
    requires 0 <= d < 16
    ensures IsUnreserved(c)
  {
    if d < 10 then ('0' as int + d) as char else ('A' as int + d - 10) as char
  }

  /** The UTF-8 encoding of one scalar value (RFC 3629, section 3): a lead byte and 0 to 3 continuation bytes. */
  function Utf8(c: char): (bytes: seq<byte>)
    ensures 1 <= |bytes| <= 4
    ensures |bytes| == 1 <==> c as int < 0x80
    ensures |bytes| > 1 ==> 0xC0 <= bytes[0] && forall i :: 1 <= i < |bytes| ==> 0x80 <= bytes[i] < 0xC0
  {
    var n := c as int;
    if n < 0x80 then [n]
    else if n < 0x800 then [0xC0 + n / 0x40, 0x80 + n % 0x40]
    else if n < 0x1_0000 then [0xE0 + n / 0x1000, 0x80 + n / 0x40 % 0x40, 0x80 + n % 0x40]
    else [0xF0 + n / 0x4_0000, 0x80 + n / 0x1000 % 0x40, 0x80 + n / 0x40 % 0x40, 0x80 + n % 0x40]
  }

  /** `%XX` for every byte. */
  function PercentEncode(bytes: seq<byte>): (s: string)
    ensures |s| == 3 * |bytes|
    ensures forall i :: 0 <= i < |s| ==> IsEncodedChar(s[i])
  {
    if bytes == [] then []
    else ['%', UpperDigit(bytes[0] / 16), UpperDigit(bytes[0] % 16)] + PercentEncode(bytes[1..])
  }

  /** encodeURIComponent: the result holds only unreserved characters and escapes. */
  function EncodeUriComponent(s: string): (r: string)
    ensures |s| <= |r|
    ensures forall i :: 0 <= i < |r| ==> IsEncodedChar(r[i])
  {
    if s == [] then []
    else (if IsUnreserved(s[0]) then [s[0]] else PercentEncode(Utf8(s[0]))) + EncodeUriComponent(s[1..])
  }

  /** A string made of unreserved characters passes through unchanged. */
  lemma {:induction false} EncodeUnreservedIsIdentity(s: string)
    requires forall i :: 0 <= i < |s| ==> IsUnreserved(s[i])
    ensures EncodeUriComponent(s) == s
  {
    if s != [] {
      EncodeUnreservedIsIdentity(s[1..]);
    }
  }

  /** The value of an upper- or lower-case hex digit, as decodeURIComponent reads escapes. */
  function EscapeDigitValue(c: char): (d: Option<int>)
    ensures d.Some? ==> 0 <= d.value < 16
  {
    if '0' <= c <= '9' then Some(c as int - '0' as int)
    else if 'a' <= c <= 'f' then Some(c as int - 'a' as int + 10)
    else if 'A' <= c <= 'F' then Some(c as int - 'A' as int + 10)
    else None
  }

  /** The byte of the escape `%XX` at position i, if there is one. */
  function EscapedByte(s: string, i: nat): (b: Option<byte>)
  {
    if i + 3 <= |s| && s[i] == '%' && EscapeDigitValue(s[i + 1]).Some? && EscapeDigitValue(s[i + 2]).Some? then
      var b: byte := EscapeDigitValue(s[i + 1]).value * 16 + EscapeDigitValue(s[i + 2]).value;
      Some(b)
    else None
  }

  /** The bytes of the n escapes at the start of s. */
  function EscapedBytes(s: string, n: nat): (bytes: Option<seq<byte>>)
    ensures bytes.Some? ==> |bytes.value| == n && 3 * n <= |s|
  {
    if n == 0 then Some([])
    else match EscapedByte(s, 0)
      case None => None
      case Some(b) =>
        match EscapedBytes(s[3..], n - 1)
        case None => None
        case Some(rest) => Some([b] + rest)
  }

  /** How many bytes a UTF-8 sequence with this lead byte has; 0 for a byte that cannot lead. */
  function Utf8Length(lead: byte): nat {
    if lead < 0x80 then 1
    else if lead < 0xC0 then 0
    else if lead < 0xE0 then 2
    else if lead < 0xF0 then 3
    else if lead < 0xF8 then 4
    else 0
  }

  predicate IsContinuation(b: byte) {
    0x80 <= b < 0xC0
  }

  /** The six payload bits of a continuation byte. */
  function ContinuationBits(b: byte): int {
    b as int - 0x80
  }

  /** The number the payload bits of a lead byte and its continuation bytes spell. */
  function CodePoint(bytes: seq<byte>): int
    requires 1 <= |bytes| <= 4
  {
    var b := bytes[0] as int;
    if |bytes| == 1 then b
    else if |bytes| == 2 then (b - 0xC0) * 0x40 + ContinuationBits(bytes[1])
    else if |bytes| == 3 then ((b - 0xE0) * 0x40 + ContinuationBits(bytes[1])) * 0x40 + ContinuationBits(bytes[2])
    else (((b - 0xF0) * 0x40 + ContinuationBits(bytes[1])) * 0x40 + ContinuationBits(bytes[2])) * 0x40 + ContinuationBits(bytes[3])
  }

  /** The least scalar value that needs a sequence of this length; smaller ones are overlong. */
  function LeastCodePoint(length: nat): int {
    if length <= 1 then 0 else if length == 2 then 0x80 else if length == 3 then 0x800 else 0x1_0000
  }

  /**
   * The scalar value a UTF-8 sequence encodes; None for a bad continuation
   * byte, an overlong form, a surrogate or a value past U+10FFFF.
   */
  function Utf8Decode(bytes: seq<byte>): (c: Option<char>)
    requires 1 <= |bytes| <= 4 && Utf8Length(bytes[0]) == |bytes|
  {
    var n := CodePoint(bytes);
    if && (forall i :: 1 <= i < |bytes| ==> IsContinuation(bytes[i]))
       && LeastCodePoint(|bytes|) <= n <= 0x10_FFFF && !(0xD800 <= n < 0xE000)
    then Some(n as char)
    else None
  }

  /** The character whose escapes start s, and how many characters of s they take. */
  function DecodeEscapedChar(s: string): (r: Option<(char, nat)>)
    ensures r.Some? ==> 3 <= r.value.1 <= |s|
  {
    match EscapedByte(s, 0)
    case None => None
    case Some(lead) =>
      var n := Utf8Length(lead);
      if n == 0 then None
      else match EscapedBytes(s, n)
        case None => None
        case Some(bytes) =>
          match Utf8Decode(bytes)
          case None => None
          case Some(c) => Some((c, 3 * n))
  }

  /** decodeURIComponent (ECMAScript 2022, section 19.2.6.2); None where it throws a URIError. */
  function DecodeUriComponent(s: string): (r: Option<string>)
    decreases |s|
  {
    if s == [] then Some([])
    else if s[0] != '%' then
      match DecodeUriComponent(s[1..])
      case None => None
      case Some(rest) => Some([s[0]] + rest)
    else
      match DecodeEscapedChar(s)
      case None => None
      case Some(decoded) =>
        match DecodeUriComponent(s[decoded.1..])
        case None => None
        case Some(rest) => Some([decoded.0] + rest)
  }

  lemma {:induction false} EscapedBytesOfPercentEncode(bytes: seq<byte>, tail: string)
    ensures EscapedBytes(PercentEncode(bytes) + tail, |bytes|) == Some(bytes)
  {
    if bytes != [] {
      var s := PercentEncode(bytes) + tail;
      var b := bytes[0];
      assert s[0] == '%' && s[1] == UpperDigit(b / 16) && s[2] == UpperDigit(b % 16);
      assert EscapedByte(s, 0) == Some(b);
      assert s[3..] == PercentEncode(bytes[1..]) + tail;
      EscapedBytesOfPercentEncode(bytes[1..], tail);
      assert [b] + bytes[1..] == bytes;
    }
  }

  lemma Utf8CodePoint(c: char)
    ensures CodePoint(Utf8(c)) == c as int
  {
    var n := c as int;
    var q1, r1 := n / 0x40, n % 0x40;
    assert n == q1 * 0x40 + r1;
    if 0x800 <= n < 0x1_0000 {
      var q2, r2 := q1 / 0x40, q1 % 0x40;
      assert q1 == q2 * 0x40 + r2;
      assert n / 0x1000 == q2;
      assert n / 0x40 % 0x40 == r2;
    } else if 0x1_0000 <= n {
      var q2, r2 := q1 / 0x40, q1 % 0x40;
      var q3, r3 := q2 / 0x40, q2 % 0x40;
      assert q1 == q2 * 0x40 + r2;
      assert q2 == q3 * 0x40 + r3;
      assert n / 0x1000 == q2;
      assert n / 0x4_0000 == q3;
      assert n / 0x1000 % 0x40 == r3;
    }
  }

  lemma Utf8RoundTrip(c: char)
    ensures Utf8Length(Utf8(c)[0]) == |Utf8(c)|
    ensures Utf8Decode(Utf8(c)) == Some(c)
  {
    Utf8CodePoint(c);
  }

  lemma DecodeEscapedCharOfEncoding(c: char, tail: string)
    requires !IsUnreserved(c)
    ensures DecodeEscapedChar(PercentEncode(Utf8(c)) + tail) == Some((c, |PercentEncode(Utf8(c))|))
  {
    var bytes := Utf8(c);
    var s := PercentEncode(bytes) + tail;
    EscapedBytesOfPercentEncode(bytes, tail);
    EscapedBytesOfPercentEncode(bytes[..1], PercentEncode(bytes[1..]) + tail);
    assert PercentEncode(bytes) == PercentEncode(bytes[..1]) + PercentEncode(bytes[1..]);
    Utf8RoundTrip(c);
  }

  /** decodeURIComponent undoes encodeURIComponent. */
  lemma {:induction false} DecodeEncodeUriComponent(s: string)
    ensures DecodeUriComponent(EncodeUriComponent(s)) == Some(s)
  {
    if s != [] {
      var rest := EncodeUriComponent(s[1..]);
      DecodeEncodeUriComponent(s[1..]);
      if IsUnreserved(s[0]) {
        assert EncodeUriComponent(s)[1..] == rest;
      } else {
        var e := PercentEncode(Utf8(s[0]));
        DecodeEscapedCharOfEncoding(s[0], rest);
        assert EncodeUriComponent(s)[|e|..] == rest;
      }
      assert [s[0]] + s[1..] == s;
    }
  }

  /** The '&'-separated fields of a query string, in order. */
  function QueryFields(query: string): (fields: seq<string>)
    ensures |fields| >= 1
  {
    if query == [] then [[]]
    else
      var rest := QueryFields(query[1..]);
      if query[0] == '&' then [[]] + rest else [[query[0]] + rest[0]] + rest[1..]
  }

  lemma {:induction false} QueryFieldsWithoutSeparator(s: string)
    requires '&' !in s
    ensures QueryFields(s) == [s]
  {
    if s != [] {
      QueryFieldsWithoutSeparator(s[1..]);
      assert [s[0]] + s[1..] == s;
    }
  }

  lemma {:induction false} QueryFieldsAfterSeparator(first: string, rest: string)
    requires '&' !in first
    ensures QueryFields(first + "&" + rest) == [first] + QueryFields(rest)
  {
    if first != [] {
      QueryFieldsAfterSeparator(first[1..], rest);
      assert (first + "&" + rest)[1..] == first[1..] + "&" + rest;
      assert [first[0]] + first[1..] == first;
    } else {
      assert (first + "&" + rest)[1..] == rest;
    }
  }

  /** Fields joined into a query string with '&', as a template literal `${a}&${b}` writes them. */
  function JoinFields(fields: seq<string>): (query: string)
    requires |fields| >= 1
  {
    if |fields| == 1 then fields[0] else fields[0] + "&" + JoinFields(fields[1..])
  }

  lemma JoinThreeFields(a: string, b: string, c: string)
    ensures JoinFields([a, b, c]) == a + "&" + (b + "&" + c)
  {
    assert [b, c][1..] == [c];
    assert JoinFields([b, c]) == b + "&" + c;
    assert [a, b, c][1..] == [b, c];
  }

  /** Splitting a joined query gives the fields back, provided none of them holds an '&'. */
  lemma {:induction false} QueryFieldsOfJoin(fields: seq<string>)
    requires |fields| >= 1
    requires forall i :: 0 <= i < |fields| ==> '&' !in fields[i]
    ensures QueryFields(JoinFields(fields)) == fields
  {
    if |fields| == 1 {
      QueryFieldsWithoutSeparator(fields[0]);
    } else {
      QueryFieldsOfJoin(fields[1..]);
      QueryFieldsAfterSeparator(fields[0], JoinFields(fields[1..]));
      assert [fields[0]] + fields[1..] == fields;
    }
  }

  /** A character other than '&' occurs in a joined query only if it occurs in a field. */
  lemma {:induction false} JoinFieldsKeepsOut(fields: seq<string>, c: char)
    requires |fields| >= 1 && c != '&'
    requires forall i :: 0 <= i < |fields| ==> c !in fields[i]
    ensures c !in JoinFields(fields)
  {
    if |fields| > 1 {
      JoinFieldsKeepsOut(fields[1..], c);
    }
  }

  /** Encoded text never holds a field separator or a fragment mark. */
  lemma EncodedHasNoDelimiters(s: string)
    ensures '&' !in EncodeUriComponent(s) && '#' !in EncodeUriComponent(s) && '=' !in EncodeUriComponent(s)
  {
  }
}

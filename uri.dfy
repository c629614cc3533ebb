/** `encodeURIComponent`, which the page applies to the player id in the state URL's query,
    and a decoder in the manner of `decodeURIComponent` that undoes it. */
module Uri {
  import opened Wrappers

  newtype Byte = b: int | 0 <= b < 256

  /** The characters `encodeURIComponent` leaves as they are: letters, digits and `-_.!~*'()`. */
  predicate IsUnreserved(c: char) {
    ('A' <= c <= 'Z') || ('a' <= c <= 'z') || ('0' <= c <= '9') ||
    c == '-' || c == '_' || c == '.' || c == '!' || c == '~' || c == '*' || c == '\'' ||
    c == '(' || c == ')'
  }

  predicate IsUpperHex(c: char) {
    ('0' <= c <= '9') || ('A' <= c <= 'F')
  }

  /** The characters that can occur in an encoded component. */
  predicate IsUriSafe(c: char) {
    IsUnreserved(c) || c == '%'
  }

  /** `encodeURIComponent` writes hexadecimal digits in upper case. */
  function HexDigit(n: int): (c: char)
    requires 0 <= n < 16
    ensures IsUpperHex(c)
  {
    if n < 10 then ('0' as int + n) as char else ('A' as int + n - 10) as char
  }

  /** The value of a hexadecimal digit of either case. */
  function HexValue(c: char): (r: Option<int>)
    ensures r.Some? ==> 0 <= r.value < 16
  {
    if '0' <= c <= '9' then Some(c as int - '0' as int)
    else if 'A' <= c <= 'F' then Some(c as int - 'A' as int + 10)
    else if 'a' <= c <= 'f' then Some(c as int - 'a' as int + 10)
    else None
  }

  lemma HexRoundTrip(n: int)
    requires 0 <= n < 16
    ensures HexValue(HexDigit(n)) == Some(n)
  {
  }

  /** The UTF-8 encoding of one Unicode scalar value (RFC 3629, section 3). */
  function Utf8(c: char): (bytes: seq<Byte>)
    ensures 1 <= |bytes| <= 4
  {
    var cp := c as int;
    if cp < 0x80 then [cp as Byte]
    else if cp < 0x800 then [(0xC0 + cp / 64) as Byte, (0x80 + cp % 64) as Byte]
    else if cp < 0x1_0000 then
      [(0xE0 + cp / 4096) as Byte, (0x80 + (cp / 64) % 64) as Byte, (0x80 + cp % 64) as Byte]
    else
      [(0xF0 + cp / 262144) as Byte, (0x80 + (cp / 4096) % 64) as Byte,
       (0x80 + (cp / 64) % 64) as Byte, (0x80 + cp % 64) as Byte]
  }

  /** One byte as `%HH`. */
  function Percent(b: Byte): (r: string)
    ensures |r| == 3 && r[0] == '%' && IsUpperHex(r[1]) && IsUpperHex(r[2])
  {
    ['%', HexDigit(b as int / 16), HexDigit(b as int % 16)]
  }

  function PercentAll(bs: seq<Byte>): (r: string)
    ensures |r| == 3 * |bs|
    ensures forall k :: 0 <= k < |r| ==> r[k] == '%' || IsUpperHex(r[k])
  {
    if bs == [] then [] else Percent(bs[0]) + PercentAll(bs[1..])
  }

  function EncodeChar(c: char): (r: string)
    ensures |r| >= 1
    ensures forall k :: 0 <= k < |r| ==> IsUriSafe(r[k])
  {
    if IsUnreserved(c) then [c] else PercentAll(Utf8(c))
  }

  /** `encodeURIComponent(s)`: each character kept when unreserved, otherwise replaced by the
      `%HH` escapes of its UTF-8 bytes. The result holds only unreserved characters and `%`,
      so it cannot end the query value early (no `&`, `#`, `=` or space). */
  function EncodeUriComponent(s: string): (r: string)
    ensures |r| >= |s|
    ensures forall k :: 0 <= k < |r| ==> IsUriSafe(r[k])
  {
    if s == [] then [] else EncodeChar(s[0]) + EncodeUriComponent(s[1..])
  }

  /** A string made only of unreserved characters is its own encoding. */
  lemma {:induction false} EncodeUnreservedIdentity(s: string)
    requires forall k :: 0 <= k < |s| ==> IsUnreserved(s[k])
    ensures EncodeUriComponent(s) == s
  {
    if s != [] {
      EncodeUnreservedIdentity(s[1..]);
    }
  }

  /** The byte written as `%HH` at the front of `s`, if any. */
  function PercentByteAt(s: string): (r: Option<Byte>)
    ensures r.Some? ==> |s| >= 3 && s[0] == '%'
  {
    if |s| >= 3 && s[0] == '%' then
      match (HexValue(s[1]), HexValue(s[2]))
      case (Some(hi), Some(lo)) => Some((hi * 16 + lo) as Byte)
      case _ => None
    else None
  }

  /** Reads `n` continuation bytes (`%80`-`%BF`), each adding six bits to `acc`. */
  function ReadContinuation(s: string, n: nat, acc: int): Option<int>
    decreases n
  {
    if n == 0 then Some(acc)
    else
      match PercentByteAt(s)
      case Some(b) =>
        if 0x80 <= b < 0xC0 then ReadContinuation(s[3..], n - 1, acc * 64 + (b as int - 0x80))
        else None
      case None => None
  }

  /** The code point a lead byte starts, as (sequence length, payload bits of the lead byte). */
  function LeadByte(b: Byte): Option<(nat, int)> {
    if b < 0x80 then Some((1, b as int))
    else if 0xC0 <= b < 0xE0 then Some((2, b as int - 0xC0))
    else if 0xE0 <= b < 0xF0 then Some((3, b as int - 0xE0))
    else if 0xF0 <= b < 0xF8 then Some((4, b as int - 0xF0))
    else None
  }

  /** The least code point whose encoding has `n` bytes (longer encodings are overlong). */
  function MinCodePoint(n: nat): int {
    if n <= 1 then 0 else if n == 2 then 0x80 else if n == 3 then 0x800 else 0x1_0000
  }

  predicate IsScalarValue(cp: int) {
    (0 <= cp < 0xD800) || (0xE000 <= cp < 0x11_0000)
  }

  /** Decodes one `%HH`-escaped UTF-8 sequence at the front of `s`: the character and how
      many characters of `s` it took. */
  function DecodeEscape(s: string): (r: Option<(char, nat)>)
    ensures r.Some? ==> 3 <= r.value.1 <= |s|
  {
    match PercentByteAt(s)
    case None => None
    case Some(b0) =>
      match LeadByte(b0)
      case None => None
      case Some((n, lead)) =>
        if |s| < 3 * n then None
        else
          match ReadContinuation(s[3..], n - 1, lead)
          case None => None
          case Some(cp) =>
            if IsScalarValue(cp) && cp >= MinCodePoint(n) then Some((cp as char, 3 * n)) else None
  }

  /** Decodes a URI component; `None` on a malformed escape, where `decodeURIComponent` throws. */
  function DecodeUriComponent(s: string): Option<string>
    decreases |s|
  {
    if s == [] then Some([])
    else if s[0] != '%' then
      match DecodeUriComponent(s[1..])
      case None => None
      case Some(t) => Some([s[0]] + t)
    else
      match DecodeEscape(s)
      case None => None
      case Some((c, n)) =>
        match DecodeUriComponent(s[n..])
        case None => None
        case Some(t) => Some([c] + t)
  }

  lemma PercentByteAtPercent(b: Byte, rest: string)
    ensures PercentByteAt(Percent(b) + rest) == Some(b)
  {
    var s := Percent(b) + rest;
    HexRoundTrip(b as int / 16);
    HexRoundTrip(b as int % 16);
    assert s[1] == HexDigit(b as int / 16) && s[2] == HexDigit(b as int % 16);
  }

  /** The value `ReadContinuation` builds from continuation bytes `cs`. */
  function ContinuationValue(acc: int, cs: seq<Byte>): int
    decreases |cs|
  {
    if cs == [] then acc else ContinuationValue(acc * 64 + (cs[0] as int - 0x80), cs[1..])
  }

  lemma {:induction false} ReadPercentContinuation(cs: seq<Byte>, rest: string, acc: int)
    requires forall k :: 0 <= k < |cs| ==> 0x80 <= cs[k] < 0xC0
    ensures ReadContinuation(PercentAll(cs) + rest, |cs|, acc) == Some(ContinuationValue(acc, cs))
    decreases |cs|
  {
    if cs != [] {
      var s := PercentAll(cs) + rest;
      assert s == Percent(cs[0]) + (PercentAll(cs[1..]) + rest);
      PercentByteAtPercent(cs[0], PercentAll(cs[1..]) + rest);
      assert s[3..] == PercentAll(cs[1..]) + rest;
      ReadPercentContinuation(cs[1..], rest, acc * 64 + (cs[0] as int - 0x80));
    }
  }

  /** Reassembling the bytes of `Utf8(c)` gives back `c`'s code point. */
  lemma Utf8Value(c: char)
    ensures var bs := Utf8(c);
      && LeadByte(bs[0]).Some?
      && LeadByte(bs[0]).value.0 == |bs|
      && (forall k :: 1 <= k < |bs| ==> 0x80 <= bs[k] < 0xC0)
      && ContinuationValue(LeadByte(bs[0]).value.1, bs[1..]) == c as int
      && c as int >= MinCodePoint(|bs|)
  {
    var cp := c as int;
    var bs := Utf8(c);
    if cp < 0x80 {
    } else if cp < 0x800 {
      assert bs[1..] == [bs[1]];
    } else if cp < 0x1_0000 {
      var p0, d1, d2 := cp / 4096, (cp / 64) % 64, cp % 64;
      assert bs[1..][1..] == [bs[2]];
      assert ContinuationValue(p0, bs[1..]) == ContinuationValue(p0 * 64 + d1, [bs[2]]);
      assert ContinuationValue(p0 * 64 + d1, [bs[2]]) == (p0 * 64 + d1) * 64 + d2;
      Split64(cp);
      Split64(cp / 64);
    } else {
      var p0, d1, d2, d3 := cp / 262144, (cp / 4096) % 64, (cp / 64) % 64, cp % 64;
      assert bs[1..][1..] == [bs[2], bs[3]] && bs[1..][1..][1..] == [bs[3]];
      assert ContinuationValue(p0, bs[1..]) == ContinuationValue(p0 * 64 + d1, [bs[2], bs[3]]);
      assert ContinuationValue(p0 * 64 + d1, [bs[2], bs[3]])
          == ContinuationValue((p0 * 64 + d1) * 64 + d2, [bs[3]]);
      assert ContinuationValue((p0 * 64 + d1) * 64 + d2, [bs[3]])
          == ((p0 * 64 + d1) * 64 + d2) * 64 + d3;
      Split64(cp);
      Split64(cp / 4096);
      Split64(cp / 64);
      assert cp / 64 / 64 == cp / 4096;
      assert cp / 4096 / 64 == cp / 262144;
    }
  }

  lemma Split64(x: int)
    requires x >= 0
    ensures x == (x / 64) * 64 + x % 64
    ensures x / 4096 == (x / 64) / 64
  {
  }

  lemma DecodeEscapeUtf8(c: char, rest: string)
    ensures DecodeEscape(PercentAll(Utf8(c)) + rest) == Some((c, 3 * |Utf8(c)|))
  {
    var bs := Utf8(c);
    var s := PercentAll(bs) + rest;
    Utf8Value(c);
    assert s == Percent(bs[0]) + (PercentAll(bs[1..]) + rest);
    PercentByteAtPercent(bs[0], PercentAll(bs[1..]) + rest);
    assert s[3..] == PercentAll(bs[1..]) + rest;
    var lead := LeadByte(bs[0]).value;
    ReadPercentContinuation(bs[1..], rest, lead.1);
  }

  lemma DecodeEncodeChar(c: char, rest: string, t: string)
    requires DecodeUriComponent(rest) == Some(t)
    ensures DecodeUriComponent(EncodeChar(c) + rest) == Some([c] + t)
  {
    var s := EncodeChar(c) + rest;
    if IsUnreserved(c) {
      assert s[1..] == rest;
    } else {
      DecodeEscapeUtf8(c, rest);
      assert s[3 * |Utf8(c)|..] == rest;
    }
  }

  /** Decoding undoes `encodeURIComponent`: the server reads back exactly the player id. */
  lemma {:induction false} DecodeEncode(s: string)
    ensures DecodeUriComponent(EncodeUriComponent(s)) == Some(s)
  {
    if s != [] {
      DecodeEncode(s[1..]);
      DecodeEncodeChar(s[0], EncodeUriComponent(s[1..]), s[1..]);
      assert [s[0]] + s[1..] == s;
    }
  }
}

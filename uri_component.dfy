/**
 * `encodeURIComponent`, as the marker layer uses it to put an area number
 * into the query string of the report-form link (the percent-encoding of
 * section 2.1 of RFC 3986 applied to the UTF-8 bytes of each character
 * outside the unreserved set), and the matching decoder, so that the link's
 * last query value can be shown to give the area number back.
 *
 * Dafny characters are Unicode scalar values, so the lone-surrogate case in
 * which `encodeURIComponent` throws cannot arise here.
 */
module UriComponent {
  import opened Wrappers
  import opened Seqs

  type Byte = x: int | 0 <= x < 256

  /** The characters `encodeURIComponent` leaves as they are. */
  predicate Unreserved(c: char) {
    ('A' <= c <= 'Z') || ('a' <= c <= 'z') || ('0' <= c <= '9')
    || c == '-' || c == '_' || c == '.' || c == '!' || c == '~'
    || c == '*' || c == '\'' || c == '(' || c == ')'
  }

  /** The UTF-8 encoding of one character (RFC 3629, section 3). */
  function Utf8(c: char): (bs: seq<Byte>)
    ensures 1 <= |bs| <= 4
    ensures (c as int < 0x80) <==> |bs| == 1
  {
    var cp := c as int;
    if cp < 0x80 then [cp]
    else if cp < 0x800 then [0xC0 + cp / 64, 0x80 + cp % 64]
    else if cp < 0x10000 then [0xE0 + cp / 4096, 0x80 + (cp / 64) % 64, 0x80 + cp % 64]
    else [0xF0 + cp / 262144, 0x80 + (cp / 4096) % 64, 0x80 + (cp / 64) % 64, 0x80 + cp % 64]
  }

  /** The UTF-8 encoding of a whole string. */
  function Utf8String(s: string): seq<Byte> {
    if s == [] then [] else Utf8(s[0]) + Utf8String(s[1..])
  }

  /** An upper-case hexadecimal digit, as `encodeURIComponent` writes them. */
  function HexDigit(d: nat): (c: char)
    requires d < 16
    ensures Unreserved(c)
  {
    if d < 10 then ('0' as int + d) as char else ('A' as int + d - 10) as char
  }

  predicate IsHexDigit(c: char) {
    ('0' <= c <= '9') || ('A' <= c <= 'F') || ('a' <= c <= 'f')
  }

  function HexValue(c: char): (d: nat)
    requires IsHexDigit(c)
    ensures d < 16
  {
    if '0' <= c <= '9' then c as int - '0' as int
    else if 'A' <= c <= 'F' then c as int - 'A' as int + 10
    else c as int - 'a' as int + 10
  }

  lemma HexValueHexDigit(d: nat)
    requires d < 16
    ensures IsHexDigit(HexDigit(d)) && HexValue(HexDigit(d)) == d
  {
  }

  /** Each byte written as `%` and two upper-case hexadecimal digits. */
  function PercentBytes(bs: seq<Byte>): (t: string)
    ensures |t| == 3 * |bs|
    ensures forall k :: 0 <= k < |t| ==> Unreserved(t[k]) || t[k] == '%'
  {
    if bs == [] then []
    else ['%', HexDigit(bs[0] / 16), HexDigit(bs[0] % 16)] + PercentBytes(bs[1..])
  }

  function EncodeChar(c: char): (t: string)
    ensures forall k :: 0 <= k < |t| ==> Unreserved(t[k]) || t[k] == '%'
  {
    if Unreserved(c) then [c] else PercentBytes(Utf8(c))
  }

  /**
   * `encodeURIComponent(s)`: the result holds only unreserved characters and
   * `%` (so none of the query-string delimiters `&`, `=`, `?`, `#`), and it
   * leaves a string of unreserved characters unchanged.
   */
  function Encode(s: string): (t: string)
    ensures forall k :: 0 <= k < |t| ==> Unreserved(t[k]) || t[k] == '%'
    ensures |t| >= |s|
    ensures (forall k :: 0 <= k < |s| ==> Unreserved(s[k])) ==> t == s
  {
    if s == [] then []
    else
      var t := EncodeChar(s[0]) + Encode(s[1..]);
      assert (forall k :: 0 <= k < |s| ==> Unreserved(s[k])) ==> t == [s[0]] + s[1..];
      t
  }

  /** Percent-decoding to bytes: `%XY` is the byte 0xXY, any other character its UTF-8 bytes. */
  function PercentDecode(t: string): Option<seq<Byte>>
    decreases |t|
  {
    if t == [] then Some([])
    else if t[0] == '%' then
      if |t| >= 3 && IsHexDigit(t[1]) && IsHexDigit(t[2]) then
        match PercentDecode(t[3..])
        case None => None
        case Some(rest) => Some([HexValue(t[1]) * 16 + HexValue(t[2])] + rest)
      else None
    else
      match PercentDecode(t[1..])
      case None => None
      case Some(rest) => Some(Utf8(t[0]) + rest)
  }

  predicate IsContinuation(b: Byte) {
    0x80 <= b < 0xC0
  }

  predicate IsScalar(cp: int) {
    (0 <= cp < 0xD800) || (0xE000 <= cp < 0x11_0000)
  }

  /**
   * The first character of well-formed UTF-8 (the shortest form of a scalar
   * value) and how many bytes it takes.
   */
  function DecodeFirst(bs: seq<Byte>): (r: Option<(char, nat)>)
    ensures r.Some? ==> 1 <= r.value.1 <= |bs|
  {
    if bs == [] then None
    else
      var b0: int := bs[0];
      if b0 < 0x80 then Some((b0 as char, 1))
      else if 0xC0 <= b0 < 0xE0 then
        if |bs| < 2 || !IsContinuation(bs[1]) then None
        else
          var cp: int := (b0 - 0xC0) * 64 + (bs[1] - 0x80);
          if cp < 0x80 then None else Some((cp as char, 2))
      else if 0xE0 <= b0 < 0xF0 then
        if |bs| < 3 || !IsContinuation(bs[1]) || !IsContinuation(bs[2]) then None
        else
          var cp: int := ((b0 - 0xE0) * 64 + (bs[1] - 0x80)) * 64 + (bs[2] - 0x80);
          if cp < 0x800 || !IsScalar(cp) then None else Some((cp as char, 3))
      else if 0xF0 <= b0 < 0xF8 then
        if |bs| < 4 || !IsContinuation(bs[1]) || !IsContinuation(bs[2]) || !IsContinuation(bs[3]) then None
        else
          var cp: int := (((b0 - 0xF0) * 64 + (bs[1] - 0x80)) * 64 + (bs[2] - 0x80)) * 64 + (bs[3] - 0x80);
          if cp < 0x1_0000 || !IsScalar(cp) then None else Some((cp as char, 4))
      else None
  }

  /** Decoding well-formed UTF-8 back to characters. */
  function Utf8Decode(bs: seq<Byte>): Option<string>
    decreases |bs|
  {
    match DecodeFirst(bs)
    case None => if bs == [] then Some([]) else None
    case Some((c, n)) =>
      match Utf8Decode(bs[n..])
      case None => None
      case Some(rest) => Some([c] + rest)
  }

  /** `decodeURIComponent(t)` on the text this module can produce. */
  function Decode(t: string): Option<string> {
    match PercentDecode(t)
    case None => None
    case Some(bs) => Utf8Decode(bs)
  }

  /** Percent-encoded bytes decode back to those bytes, ahead of whatever follows them. */
  lemma {:induction false} PercentDecodePercentBytes(bs: seq<Byte>, rest: string, r: seq<Byte>)
    requires PercentDecode(rest) == Some(r)
    ensures PercentDecode(PercentBytes(bs) + rest) == Some(bs + r)
  {
    if bs == [] {
      assert PercentBytes(bs) + rest == rest;
      assert bs + r == r;
    } else {
      var tail := PercentBytes(bs[1..]) + rest;
      PercentDecodePercentBytes(bs[1..], rest, r);
      assert PercentBytes(bs) + rest == ['%', HexDigit(bs[0] / 16), HexDigit(bs[0] % 16)] + tail;
      PercentTriple(bs[0], tail, bs[1..] + r);
      ConsAppend(bs, r);
    }
  }

  /** One `%XY` triple decodes to its byte. */
  lemma PercentTriple(b: Byte, tail: string, r: seq<Byte>)
    requires PercentDecode(tail) == Some(r)
    ensures PercentDecode(['%', HexDigit(b / 16), HexDigit(b % 16)] + tail) == Some([b] + r)
  {
    var t := ['%', HexDigit(b / 16), HexDigit(b % 16)] + tail;
    assert t[3..] == tail;
    HexValueHexDigit(b / 16);
    HexValueHexDigit(b % 16);
  }

  /** Percent-decoding the encoded text gives the UTF-8 bytes of the original string. */
  lemma {:induction false} PercentDecodeEncode(s: string)
    ensures PercentDecode(Encode(s)) == Some(Utf8String(s))
  {
    if s != [] {
      PercentDecodeEncode(s[1..]);
      var rest := Encode(s[1..]);
      if Unreserved(s[0]) {
        assert ([s[0]] + rest)[1..] == rest;
      } else {
        PercentDecodePercentBytes(Utf8(s[0]), rest, Utf8String(s[1..]));
      }
    }
  }

  lemma DecodeFirstUtf8Two(c: char, rest: seq<Byte>)
    requires 0x80 <= c as int < 0x800
    ensures DecodeFirst(Utf8(c) + rest) == Some((c, 2))
  {
    var cp := c as int;
    assert (cp / 64) * 64 + cp % 64 == cp;
  }

  lemma DecodeFirstUtf8Three(c: char, rest: seq<Byte>)
    requires 0x800 <= c as int < 0x1_0000
    ensures DecodeFirst(Utf8(c) + rest) == Some((c, 3))
  {
    var cp := c as int;
    var hi, mid, lo := cp / 4096, (cp / 64) % 64, cp % 64;
    assert cp / 64 == hi * 64 + mid;
    assert (hi * 64 + mid) * 64 + lo == cp;
  }

  lemma DecodeFirstUtf8Four(c: char, rest: seq<Byte>)
    requires 0x1_0000 <= c as int
    ensures DecodeFirst(Utf8(c) + rest) == Some((c, 4))
  {
    var cp := c as int;
    var top, hi, mid, lo := cp / 262144, (cp / 4096) % 64, (cp / 64) % 64, cp % 64;
    assert cp / 4096 == top * 64 + hi;
    assert cp / 64 == (cp / 4096) * 64 + mid;
    assert ((top * 64 + hi) * 64 + mid) * 64 + lo == cp;
    assert top <= 4;
  }

  /** The decoder reads back one encoded character and goes on after its bytes. */
  lemma Utf8DecodeChar(c: char, rest: seq<Byte>)
    ensures Utf8Decode(Utf8(c) + rest) ==
      match Utf8Decode(rest)
      case None => None
      case Some(r) => Some([c] + r)
  {
    var cp := c as int;
    var bs := Utf8(c) + rest;
    assert bs[|Utf8(c)|..] == rest;
    if cp < 0x80 {
      assert DecodeFirst(bs) == Some((c, 1));
    } else if cp < 0x800 {
      DecodeFirstUtf8Two(c, rest);
    } else if cp < 0x1_0000 {
      DecodeFirstUtf8Three(c, rest);
    } else {
      DecodeFirstUtf8Four(c, rest);
    }
  }

  lemma {:induction false} Utf8DecodeUtf8String(s: string)
    ensures Utf8Decode(Utf8String(s)) == Some(s)
  {
    if s != [] {
      Utf8DecodeUtf8String(s[1..]);
      Utf8DecodeChar(s[0], Utf8String(s[1..]));
      assert [s[0]] + s[1..] == s;
    }
  }

  /** `decodeURIComponent(encodeURIComponent(s)) == s` */
  lemma DecodeEncode(s: string)
    ensures Decode(Encode(s)) == Some(s)
  {
    PercentDecodeEncode(s);
    Utf8DecodeUtf8String(s);
  }
}

/**
 * encodeURIComponent (section 18.2.6.5 of ECMAScript 2015), which index.js applies to every
 * forwarded query value, and an independent decoder used as its partner.
 *
 * A Dafny `char` is a Unicode scalar value, so a `string` here is a well-formed UTF-16
 * string in JavaScript terms: the URIError that encodeURIComponent raises for a lone
 * surrogate cannot arise.
 */
module UriComponent {
  import opened Wrappers

  newtype byte = b: int | 0 <= b < 256

  /** The characters encodeURIComponent leaves alone: uriAlpha, DecimalDigit and uriMark. */
  predicate Unreserved(c: char) {
    ('A' <= c <= 'Z') || ('a' <= c <= 'z') || ('0' <= c <= '9') ||
    c in "-_.!~*'()"
  }

  const HexDigits: string := "0123456789ABCDEF"

  function HexDigit(n: int): (c: char)
    requires 0 <= n < 16
    ensures c in HexDigits
  {
    HexDigits[n]
  }

  /** The value of a hexadecimal digit in either case, or none. */
  function HexValue(c: char): (r: Option<int>)
    ensures r.Some? ==> 0 <= r.value < 16
  {
    if '0' <= c <= '9' then Some(c as int - '0' as int)
    else if 'A' <= c <= 'F' then Some(c as int - 'A' as int + 10)
    else if 'a' <= c <= 'f' then Some(c as int - 'a' as int + 10)
    else None
  }

  lemma HexValueOfDigit(n: int)
    requires 0 <= n < 16
    ensures HexValue(HexDigit(n)) == Some(n)
  {
  }

  /** The UTF-8 encoding of one Unicode scalar value (RFC 3629). */
  function Utf8(c: char): (bs: seq<byte>)
    ensures 1 <= |bs| <= 4
  {
    var n := c as int;
    if n < 0x80 then [n as byte]
    else if n < 0x800 then [(0xC0 + n / 64) as byte, (0x80 + n % 64) as byte]
    else if n < 0x10000 then
      [(0xE0 + n / 4096) as byte, (0x80 + (n / 64) % 64) as byte, (0x80 + n % 64) as byte]
    else
      [(0xF0 + n / 262144) as byte, (0x80 + (n / 4096) % 64) as byte,
       (0x80 + (n / 64) % 64) as byte, (0x80 + n % 64) as byte]
  }

  function Utf8Bytes(s: string): seq<byte> {
    if s == [] then [] else Utf8(s[0]) + Utf8Bytes(s[1..])
  }

  /** "%XY" for every byte, with upper-case hexadecimal digits. */
  function PercentBytes(bs: seq<byte>): string {
    if bs == [] then []
    else ['%', HexDigit(bs[0] as int / 16), HexDigit(bs[0] as int % 16)] + PercentBytes(bs[1..])
  }

  function EncodeChar(c: char): string {
    if Unreserved(c) then [c] else PercentBytes(Utf8(c))
  }

  /** encodeURIComponent: unreserved characters are kept, every other character becomes the
      percent-escaped octets of its UTF-8 encoding. */
  function EncodeURIComponent(s: string): string {
    if s == [] then [] else EncodeChar(s[0]) + EncodeURIComponent(s[1..])
  }

  /** The characters that can appear in the output of EncodeURIComponent. */
  predicate EncodedAlphabet(c: char) {
    Unreserved(c) || c == '%' || c in HexDigits
  }

  // ----- the decoder: percent-decoding to octets, then UTF-8 decoding -----

  /** The octet at the start of a percent-encoded string and the number of characters it
      takes: an escape "%XY", or a single ASCII character standing for itself. */
  function DecodeOctet(s: string): (r: Option<(byte, nat)>)
    ensures r.Some? ==> 1 <= r.value.1 <= |s|
  {
    if s == [] then None
    else if s[0] == '%' then
      if |s| < 3 then None
      else match (HexValue(s[1]), HexValue(s[2]))
        case (Some(hi), Some(lo)) => Some(((hi * 16 + lo) as byte, 3))
        case _ => None
    else if s[0] as int < 0x80 then Some((s[0] as int as byte, 1))
    else None
  }

  /** Percent-decoding to octets. */
  function PercentDecode(s: string): Option<seq<byte>>
    decreases |s|
  {
    if s == [] then Some([])
    else match DecodeOctet(s)
      case None => None
      case Some((b, len)) =>
        match PercentDecode(s[len..])
        case Some(rest) => Some([b] + rest)
        case None => None
  }

  predicate IsContinuation(b: byte) { 0x80 <= b < 0xC0 }

  predicate IsScalar(n: int) { 0 <= n < 0xD800 || 0xE000 <= n < 0x110000 }

  /** The scalar value a well-formed lead octet and its continuation octets stand for. */
  function DecodeScalar(bs: seq<byte>): (r: Option<(char, nat)>)
    ensures r.Some? ==> 1 <= r.value.1 <= |bs|
  {
    if bs == [] then None
    else
      var b0 := bs[0] as int;
      var n: int :=
        if b0 < 0x80 then b0
        else if 0xC0 <= b0 < 0xE0 && |bs| >= 2 && IsContinuation(bs[1]) then
          (b0 - 0xC0) * 64 + (bs[1] as int - 0x80)
        else if 0xE0 <= b0 < 0xF0 && |bs| >= 3 && IsContinuation(bs[1]) && IsContinuation(bs[2]) then
          ((b0 - 0xE0) * 64 + (bs[1] as int - 0x80)) * 64 + (bs[2] as int - 0x80)
        else if 0xF0 <= b0 < 0xF8 && |bs| >= 4 && IsContinuation(bs[1]) && IsContinuation(bs[2])
                && IsContinuation(bs[3]) then
          (((b0 - 0xF0) * 64 + (bs[1] as int - 0x80)) * 64 + (bs[2] as int - 0x80)) * 64
            + (bs[3] as int - 0x80)
        else -1;
      var len: nat := if b0 < 0x80 then 1 else if b0 < 0xE0 then 2 else if b0 < 0xF0 then 3 else 4;
      if IsScalar(n) then Some((n as char, len)) else None
  }

  function Utf8Decode(bs: seq<byte>): Option<string>
    decreases |bs|
  {
    if bs == [] then Some([])
    else match DecodeScalar(bs)
      case None => None
      case Some((c, len)) =>
        match Utf8Decode(bs[len..])
        case Some(rest) => Some([c] + rest)
        case None => None
  }

  /** The inverse of EncodeURIComponent, as a UTF-8 aware server decodes a query value. */
  function DecodeURIComponent(s: string): Option<string> {
    match PercentDecode(s)
    case Some(bs) => Utf8Decode(bs)
    case None => None
  }

  // ----- properties -----

  lemma {:induction false} PercentBytesAlphabet(bs: seq<byte>)
    ensures forall i :: 0 <= i < |PercentBytes(bs)| ==> EncodedAlphabet(PercentBytes(bs)[i])
  {
    if bs != [] {
      PercentBytesAlphabet(bs[1..]);
      var head := ['%', HexDigit(bs[0] as int / 16), HexDigit(bs[0] as int % 16)];
      assert PercentBytes(bs) == head + PercentBytes(bs[1..]);
    }
  }

  /** Every character of the encoding is unreserved, '%' or an upper-case hex digit. */
  lemma {:induction false} EncodeAlphabet(s: string)
    ensures forall i :: 0 <= i < |EncodeURIComponent(s)| ==> EncodedAlphabet(EncodeURIComponent(s)[i])
  {
    if s != [] {
      EncodeAlphabet(s[1..]);
      if !Unreserved(s[0]) { PercentBytesAlphabet(Utf8(s[0])); }
      assert EncodeURIComponent(s) == EncodeChar(s[0]) + EncodeURIComponent(s[1..]);
    }
  }

  /** In particular the encoding never contains the query-string separators. */
  lemma EncodeHasNoSeparators(s: string)
    ensures '&' !in EncodeURIComponent(s) && '=' !in EncodeURIComponent(s)
  {
    var e := EncodeURIComponent(s);
    EncodeAlphabet(s);
    assert forall i :: 0 <= i < |e| ==> e[i] != '&' && e[i] != '=';
  }

  /** Encoding leaves a string unchanged exactly when every character is unreserved. */
  lemma {:induction false} EncodeIdentityIff(s: string)
    ensures EncodeURIComponent(s) == s <==> forall i :: 0 <= i < |s| ==> Unreserved(s[i])
  {
    EncodeLength(s);
    if s != [] {
      EncodeIdentityIff(s[1..]);
      EncodeLength(s[1..]);
      assert EncodeURIComponent(s) == EncodeChar(s[0]) + EncodeURIComponent(s[1..]);
      if Unreserved(s[0]) {
        if forall i :: 0 <= i < |s[1..]| ==> Unreserved(s[1..][i]) {
          assert forall i :: 0 <= i < |s| ==> Unreserved(s[i]) by {
            forall i | 0 <= i < |s| ensures Unreserved(s[i]) {
              if i > 0 { assert s[i] == s[1..][i - 1]; }
            }
          }
        } else {
          var j :| 0 <= j < |s[1..]| && !Unreserved(s[1..][j]);
          assert !Unreserved(s[j + 1]);
          assert EncodeURIComponent(s[1..]) != s[1..];
          assert s == [s[0]] + s[1..];
        }
      } else {
        assert |EncodeChar(s[0])| >= 3;
      }
    }
  }

  lemma PercentBytesLength(bs: seq<byte>)
    ensures |PercentBytes(bs)| == 3 * |bs|
  {
  }

  /** The encoding of a string is never shorter than the string, and it is strictly longer
      as soon as one character needs escaping. */
  lemma {:induction false} EncodeLength(s: string)
    ensures |EncodeURIComponent(s)| >= |s|
    ensures (exists i :: 0 <= i < |s| && !Unreserved(s[i])) ==> |EncodeURIComponent(s)| > |s|
  {
    if s != [] {
      EncodeLength(s[1..]);
      PercentBytesLength(Utf8(s[0]));
      if exists i :: 0 <= i < |s| && !Unreserved(s[i]) {
        var i :| 0 <= i < |s| && !Unreserved(s[i]);
        if i > 0 { assert !Unreserved(s[1..][i - 1]); }
      }
    }
  }

  // round trip

  lemma DecodeOctetEscape(b: byte, r: string)
    ensures DecodeOctet(['%', HexDigit(b as int / 16), HexDigit(b as int % 16)] + r) == Some((b, 3))
  {
    var n := b as int;
    var hi, lo := n / 16, n % 16;
    var s := ['%', HexDigit(hi), HexDigit(lo)] + r;
    HexValueOfDigit(hi);
    HexValueOfDigit(lo);
    assert |s| >= 3 && s[0] == '%' && s[1] == HexDigit(hi) && s[2] == HexDigit(lo);
    assert hi * 16 + lo == n;
  }

  lemma PercentDecodeEscape(b: byte, r: string, t: seq<byte>)
    requires PercentDecode(r) == Some(t)
    ensures PercentDecode(['%', HexDigit(b as int / 16), HexDigit(b as int % 16)] + r) == Some([b] + t)
  {
    var s := ['%', HexDigit(b as int / 16), HexDigit(b as int % 16)] + r;
    DecodeOctetEscape(b, r);
    assert s[3..] == r;
  }

  lemma ConsAppend<T>(xs: seq<T>, ys: seq<T>)
    requires xs != []
    ensures [xs[0]] + (xs[1..] + ys) == xs + ys
  {
  }

  lemma PercentBytesCons(bs: seq<byte>, rest: string)
    requires bs != []
    ensures PercentBytes(bs) + rest
         == ['%', HexDigit(bs[0] as int / 16), HexDigit(bs[0] as int % 16)] + (PercentBytes(bs[1..]) + rest)
  {
  }

  lemma {:induction false} PercentDecodeBytes(bs: seq<byte>, rest: string, tail: seq<byte>)
    requires PercentDecode(rest) == Some(tail)
    ensures PercentDecode(PercentBytes(bs) + rest) == Some(bs + tail)
  {
    if bs == [] {
      assert PercentBytes(bs) + rest == rest && bs + tail == tail;
    } else {
      var b := bs[0];
      PercentBytesCons(bs, rest);
      PercentDecodeBytes(bs[1..], rest, tail);
      PercentDecodeEscape(b, PercentBytes(bs[1..]) + rest, bs[1..] + tail);
      ConsAppend(bs, tail);
    }
  }

  lemma {:induction false} PercentDecodeEncode(s: string)
    ensures PercentDecode(EncodeURIComponent(s)) == Some(Utf8Bytes(s))
  {
    if s != [] {
      PercentDecodeEncode(s[1..]);
      var rest := EncodeURIComponent(s[1..]);
      if Unreserved(s[0]) {
        var e := [s[0]] + rest;
        assert e[1..] == rest;
        assert Utf8(s[0]) == [s[0] as int as byte];
      } else {
        PercentDecodeBytes(Utf8(s[0]), rest, Utf8Bytes(s[1..]));
      }
    }
  }

  lemma DivMod64(n: int)
    requires n >= 0
    ensures (n / 64) * 64 + n % 64 == n
    ensures (n / 4096) * 64 + (n / 64) % 64 == n / 64
    ensures (n / 262144) * 64 + (n / 4096) % 64 == n / 4096
  {
  }

  lemma DecodeScalarUtf8(c: char, rest: seq<byte>)
    ensures DecodeScalar(Utf8(c) + rest) == Some((c, |Utf8(c)|))
  {
    var n := c as int;
    DivMod64(n);
    var bs := Utf8(c) + rest;
    if n < 0x80 {
    } else if n < 0x800 {
      assert bs[0] as int == 0xC0 + n / 64 && bs[1] as int == 0x80 + n % 64;
    } else if n < 0x10000 {
      assert bs[0] as int == 0xE0 + n / 4096 && bs[1] as int == 0x80 + (n / 64) % 64;
      assert bs[2] as int == 0x80 + n % 64;
    } else {
      assert bs[0] as int == 0xF0 + n / 262144 && bs[1] as int == 0x80 + (n / 4096) % 64;
      assert bs[2] as int == 0x80 + (n / 64) % 64 && bs[3] as int == 0x80 + n % 64;
    }
  }

  lemma {:induction false} Utf8DecodeEncode(s: string)
    ensures Utf8Decode(Utf8Bytes(s)) == Some(s)
  {
    if s != [] {
      Utf8DecodeEncode(s[1..]);
      var bs := Utf8Bytes(s);
      DecodeScalarUtf8(s[0], Utf8Bytes(s[1..]));
      assert bs[|Utf8(s[0])|..] == Utf8Bytes(s[1..]);
      assert s == [s[0]] + s[1..];
    }
  }

  /** Decoding undoes encodeURIComponent for every string. */
  lemma DecodeEncode(s: string)
    ensures DecodeURIComponent(EncodeURIComponent(s)) == Some(s)
  {
    PercentDecodeEncode(s);
    Utf8DecodeEncode(s);
  }

  /** Hence encodeURIComponent is injective: distinct values are never forwarded alike. */
  lemma EncodeInjective(s: string, t: string)
    requires EncodeURIComponent(s) == EncodeURIComponent(t)
    ensures s == t
  {
    DecodeEncode(s);
    DecodeEncode(t);
  }
}

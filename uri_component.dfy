/**
 * ECMAScript's encodeURIComponent and decodeURIComponent (ECMA-262, "URI Handling
 * Functions"). queryAppendError puts an error message into a redirect URL with the
 * first; the page it redirects to reads `req.query.errorMessage`, which Express
 * recovers with the second.
 *
 * Dafny's `char` is a Unicode scalar value, so the lone surrogates on which the
 * JavaScript functions throw a URIError cannot occur in a model string.
 */
module UriComponent {
  import opened Wrappers

  type Byte = b: int | 0 <= b < 256

  /** The characters encodeURIComponent copies unchanged. */
  predicate IsUnreserved(c: char) {
    ('A' <= c <= 'Z') || ('a' <= c <= 'z') || ('0' <= c <= '9') || c in "-_.!~*'()"
  }

  const HexDigits := "0123456789ABCDEF"

  function HexDigit(d: int): (c: char)
    requires 0 <= d < 16
  {
    HexDigits[d]
  }

  /** Value of a hexadecimal digit of either case. */
  function HexValue(c: char): (r: Option<int>)
    ensures r.Some? ==> 0 <= r.value < 16
  {
    if '0' <= c <= '9' then Some(c as int - '0' as int)
    else if 'A' <= c <= 'F' then Some(c as int - 'A' as int + 10)
    else if 'a' <= c <= 'f' then Some(c as int - 'a' as int + 10)
    else None
  }

  /** The UTF-8 encoding of one scalar value. */
  function Utf8(c: char): (bs: seq<Byte>)
    ensures 1 <= |bs| <= 4
  {
    var cp := c as int;
    if cp < 0x80 then [cp]
    else if cp < 0x800 then [0xC0 + cp / 64, 0x80 + cp % 64]
    else if cp < 0x10000 then [0xE0 + cp / 4096, 0x80 + (cp / 64) % 64, 0x80 + cp % 64]
    else [0xF0 + cp / 262144, 0x80 + (cp / 4096) % 64, 0x80 + (cp / 64) % 64, 0x80 + cp % 64]
  }

  /** Each byte written as `%XY` with upper-case hexadecimal digits. */
  function PercentEncode(bs: seq<Byte>): (r: string)
    ensures |r| == 3 * |bs|
  {
    if bs == [] then []
    else ['%', HexDigit(bs[0] / 16), HexDigit(bs[0] % 16)] + PercentEncode(bs[1..])
  }

  function EncodeChar(c: char): string {
    if IsUnreserved(c) then [c] else PercentEncode(Utf8(c))
  }

  /** encodeURIComponent. */
  function Encode(s: string): (r: string)
    ensures forall i :: 0 <= i < |r| ==> IsUnreserved(r[i]) || r[i] == '%' || r[i] in HexDigits
  {
    if s == [] then []
    else
      PercentEncodeAlphabet(Utf8(s[0]));
      EncodeChar(s[0]) + Encode(s[1..])
  }

  /** Reads k `%XY` triplets from the front of s. */
  function ReadBytes(s: string, k: nat): (r: Option<seq<Byte>>)
    ensures r.Some? ==> |r.value| == k && 3 * k <= |s|
  {
    if k == 0 then Some([])
    else if |s| < 3 || s[0] != '%' || HexValue(s[1]).None? || HexValue(s[2]).None? then None
    else
      match ReadBytes(s[3..], k - 1)
      case None => None
      case Some(rest) => Some([16 * HexValue(s[1]).value + HexValue(s[2]).value] + rest)
  }

  /** The length of the UTF-8 sequence a lead byte announces; 0 for a byte that cannot lead one. */
  function SequenceLength(b: Byte): nat {
    if 0xC0 <= b < 0xE0 then 2
    else if 0xE0 <= b < 0xF0 then 3
    else if 0xF0 <= b < 0xF8 then 4
    else 0
  }

  predicate IsContinuation(b: Byte) {
    0x80 <= b < 0xC0
  }

  /** A well-formed multi-byte UTF-8 sequence (no overlong form, no surrogate, at most U+10FFFF). */
  function DecodeUtf8(bs: seq<Byte>): (r: Option<char>)
  {
    if |bs| == 2 && SequenceLength(bs[0]) == 2 && IsContinuation(bs[1]) then
      var cp: int := (bs[0] as int - 0xC0) * 64 + (bs[1] as int - 0x80);
      if 0x80 <= cp then Some(cp as char) else None
    else if |bs| == 3 && SequenceLength(bs[0]) == 3 && IsContinuation(bs[1]) && IsContinuation(bs[2]) then
      var cp: int := ((bs[0] as int - 0xE0) * 64 + (bs[1] as int - 0x80)) * 64 + (bs[2] as int - 0x80);
      if 0x800 <= cp && !(0xD800 <= cp < 0xE000) then Some(cp as char) else None
    else if |bs| == 4 && SequenceLength(bs[0]) == 4 && IsContinuation(bs[1]) && IsContinuation(bs[2]) && IsContinuation(bs[3]) then
      var cp: int := (((bs[0] as int - 0xF0) * 64 + (bs[1] as int - 0x80)) * 64 + (bs[2] as int - 0x80)) * 64 + (bs[3] as int - 0x80);
      if 0x10000 <= cp < 0x110000 then Some(cp as char) else None
    else None
  }

  /** decodeURIComponent; None where it throws a URIError. */
  function Decode(s: string): (r: Option<string>)
    decreases |s|
  {
    if s == [] then Some([])
    else if s[0] != '%' then
      match Decode(s[1..])
      case None => None
      case Some(t) => Some([s[0]] + t)
    else
      match ReadBytes(s, 1)
      case None => None
      case Some(lead) =>
        if lead[0] < 0x80 then
          match Decode(s[3..])
          case None => None
          case Some(t) => Some([lead[0] as char] + t)
        else
          var n := SequenceLength(lead[0]);
          if n == 0 then None
          else
            match ReadBytes(s, n)
            case None => None
            case Some(bs) =>
              match DecodeUtf8(bs)
              case None => None
              case Some(c) =>
                match Decode(s[3 * n..])
                case None => None
                case Some(t) => Some([c] + t)
  }

  // ---------------------------------------------------------------- lemmas

  lemma PercentEncodeAlphabet(bs: seq<Byte>)
    ensures forall i :: 0 <= i < |PercentEncode(bs)| ==> PercentEncode(bs)[i] == '%' || PercentEncode(bs)[i] in HexDigits
  {
    if bs != [] {
      PercentEncodeAlphabet(bs[1..]);
    }
  }

  lemma HexRoundTrip(d: int)
    requires 0 <= d < 16
    ensures HexValue(HexDigit(d)) == Some(d)
  {
  }

  /** The triplet written for b, in front of rest, is read as b. */
  lemma ReadTriplet(b: Byte, rest: string, k: nat)
    requires k > 0
    ensures ReadBytes(['%', HexDigit(b / 16), HexDigit(b % 16)] + rest, k)
            == match ReadBytes(rest, k - 1) case None => None case Some(r) => Some([b] + r)
  {
    var s := ['%', HexDigit(b / 16), HexDigit(b % 16)] + rest;
    HexRoundTrip(b / 16);
    HexRoundTrip(b % 16);
    assert s[1] == HexDigit(b / 16) && s[2] == HexDigit(b % 16);
    assert s[3..] == rest;
  }

  /** The triplets written for bs are read back as bs, whatever follows them. */
  lemma {:induction false} ReadBytesPercentEncode(bs: seq<Byte>, t: string, k: nat)
    requires k <= |bs|
    ensures ReadBytes(PercentEncode(bs) + t, k) == Some(bs[..k])
  {
    if k > 0 {
      var b := bs[0];
      var head := ['%', HexDigit(b / 16), HexDigit(b % 16)];
      assert PercentEncode(bs) + t == head + (PercentEncode(bs[1..]) + t);
      ReadTriplet(b, PercentEncode(bs[1..]) + t, k);
      ReadBytesPercentEncode(bs[1..], t, k - 1);
      assert bs[..k] == [b] + bs[1..][..k - 1];
    }
  }

  /** Decoding the UTF-8 bytes of a multi-byte character gives the character back. */
  lemma Utf8RoundTrip(c: char)
    requires 0x80 <= c as int
    ensures SequenceLength(Utf8(c)[0]) == |Utf8(c)|
    ensures DecodeUtf8(Utf8(c)) == Some(c)
  {
    var cp := c as int;
    if cp < 0x800 {
      assert (cp / 64) * 64 + cp % 64 == cp;
    } else if cp < 0x10000 {
      var hi, mid, lo := cp / 4096, (cp / 64) % 64, cp % 64;
      assert (cp / 64) / 64 == hi;
      assert hi * 64 + mid == cp / 64;
      assert (hi * 64 + mid) * 64 + lo == cp;
    } else {
      var b0, b1, b2, b3 := cp / 262144, (cp / 4096) % 64, (cp / 64) % 64, cp % 64;
      assert (cp / 4096) / 64 == b0;
      assert (cp / 64) / 64 == cp / 4096;
      assert b0 * 64 + b1 == cp / 4096;
      assert (cp / 4096) * 64 + b2 == cp / 64;
      assert ((b0 * 64 + b1) * 64 + b2) * 64 + b3 == cp;
    }
  }

  /** Decoding one encoded character followed by anything decodes the character, then the rest. */
  lemma {:induction false} DecodeEncodedChar(c: char, t: string)
    ensures Decode(EncodeChar(c) + t) == match Decode(t) case None => None case Some(u) => Some([c] + u)
  {
    var s := EncodeChar(c) + t;
    if IsUnreserved(c) {
      assert s[0] == c && c != '%' && s[1..] == t;
    } else {
      var bs := Utf8(c);
      ReadBytesPercentEncode(bs, t, 1);
      assert bs[..1] == [bs[0]];
      assert s[0] == '%';
      if c as int < 0x80 {
        assert s[3..] == t;
        assert bs[0] as char == c;
      } else {
        Utf8RoundTrip(c);
        ReadBytesPercentEncode(bs, t, |bs|);
        assert bs[..|bs|] == bs;
        assert s[3 * |bs|..] == t;
      }
    }
  }

  /** decodeURIComponent(encodeURIComponent(s)) === s. */
  lemma {:induction false} DecodeEncode(s: string)
    ensures Decode(Encode(s)) == Some(s)
  {
    if s != [] {
      DecodeEncode(s[1..]);
      DecodeEncodedChar(s[0], Encode(s[1..]));
      assert s == [s[0]] + s[1..];
    }
  }

  /** A string of unreserved characters is its own encoding. */
  lemma {:induction false} EncodeUnreserved(s: string)
    requires forall i :: 0 <= i < |s| ==> IsUnreserved(s[i])
    ensures Encode(s) == s
  {
    if s != [] {
      EncodeUnreserved(s[1..]);
      assert s == [s[0]] + s[1..];
    }
  }
}

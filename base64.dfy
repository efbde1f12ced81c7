/** `atob` and `btoa` as the browser defines them: `atob` is the WHATWG
    "forgiving-base64 decode" (ASCII whitespace removed, padding optional,
    leftover bits dropped) and `btoa` the padded base64 encoding of section 4
    of RFC 4648. `isBase64` accepts exactly the canonical encodings. */
module Base64 {
  import opened Wrappers

  type byte = x: int | 0 <= x < 256

  /** The RFC 4648 alphabet, digit `d` to character. */
  function DigitToChar(d: int): (c: char)
    requires 0 <= d < 64
  {
    if d < 26 then ('A' as int + d) as char
    else if d < 52 then ('a' as int + d - 26) as char
    else if d < 62 then ('0' as int + d - 52) as char
    else if d == 62 then '+'
    else '/'
  }

  predicate IsDigitChar(c: char) {
    ('A' <= c <= 'Z') || ('a' <= c <= 'z') || ('0' <= c <= '9') || c == '+' || c == '/'
  }

  function CharToDigit(c: char): (d: int)
    requires IsDigitChar(c)
    ensures 0 <= d < 64 && DigitToChar(d) == c
  {
    if 'A' <= c <= 'Z' then c as int - 'A' as int
    else if 'a' <= c <= 'z' then c as int - 'a' as int + 26
    else if '0' <= c <= '9' then c as int - '0' as int + 52
    else if c == '+' then 62
    else 63
  }

  lemma DigitRoundTrip(d: int)
    requires 0 <= d < 64
    ensures IsDigitChar(DigitToChar(d)) && CharToDigit(DigitToChar(d)) == d
  {
  }

  /** The four digits of a group of three bytes. */
  function EncodeGroup(b0: byte, b1: byte, b2: byte): (s: string)
    ensures |s| == 4 && AllDigits(s)
  {
    DigitRoundTrip(b0 / 4); DigitRoundTrip((b0 % 4) * 16 + b1 / 16);
    DigitRoundTrip((b1 % 16) * 4 + b2 / 64); DigitRoundTrip(b2 % 64);
    [DigitToChar(b0 / 4), DigitToChar((b0 % 4) * 16 + b1 / 16),
     DigitToChar((b1 % 16) * 4 + b2 / 64), DigitToChar(b2 % 64)]
  }

  /** The unpadded digits for `b`, three bytes to four characters; a short
      tail of one or two bytes gives the first two or three digits of a
      group whose missing bytes are zero. */
  function EncodeDigits(b: seq<byte>): (s: string)
    ensures |s| == 4 * (|b| / 3) + (if |b| % 3 == 0 then 0 else |b| % 3 + 1)
    ensures AllDigits(s)
  {
    if |b| == 0 then ""
    else if |b| == 1 then EncodeGroup(b[0], 0, 0)[..2]
    else if |b| == 2 then EncodeGroup(b[0], b[1], 0)[..3]
    else EncodeGroup(b[0], b[1], b[2]) + EncodeDigits(b[3..])
  }

  function Padding(n: nat): string {
    if n % 3 == 1 then "==" else if n % 3 == 2 then "=" else ""
  }

  /** `btoa` of the binary string whose code units are the bytes `b`. */
  function Encode(b: seq<byte>): (s: string)
    ensures |s| % 4 == 0
  {
    var d := EncodeDigits(b);
    var q := |b| / 3;
    assert |d| + |Padding(|b|)| == 4 * q + (if |b| % 3 == 0 then 0 else 4);
    d + Padding(|b|)
  }

  /** WHATWG ASCII whitespace. */
  predicate IsAsciiWhitespace(c: char) {
    c == '\t' || c == '\n' || c == '\U{C}' || c == '\r' || c == ' '
  }

  function RemoveAsciiWhitespace(s: string): (r: string)
    ensures |r| <= |s|
    ensures forall i :: 0 <= i < |r| ==> !IsAsciiWhitespace(r[i])
    ensures (forall i :: 0 <= i < |s| ==> !IsAsciiWhitespace(s[i])) ==> r == s
  {
    if s == [] then []
    else if IsAsciiWhitespace(s[0]) then RemoveAsciiWhitespace(s[1..])
    else [s[0]] + RemoveAsciiWhitespace(s[1..])
  }

  /** Step 2 of forgiving-base64: a length divisible by four loses one or
      two trailing `=`. */
  function StripPadding(s: string): string {
    if |s| % 4 != 0 then s
    else if |s| >= 2 && s[|s| - 2..] == "==" then s[..|s| - 2]
    else if |s| >= 1 && s[|s| - 1] == '=' then s[..|s| - 1]
    else s
  }

  predicate AllDigits(s: string) {
    forall i :: 0 <= i < |s| ==> IsDigitChar(s[i])
  }

  /** The three bytes of a group of four digits. */
  function DecodeGroup(s: string): (b: seq<byte>)
    requires |s| == 4 && AllDigits(s)
    ensures |b| == 3
  {
    var d0 := CharToDigit(s[0]);
    var d1 := CharToDigit(s[1]);
    var d2 := CharToDigit(s[2]);
    var d3 := CharToDigit(s[3]);
    [d0 * 4 + d1 / 16, (d1 % 16) * 16 + d2 / 4, (d2 % 4) * 64 + d3]
  }

  /** Bytes of a digit string with no padding: a tail of two or three digits
      is read as a group padded with `A` (zero bits), keeping the first one
      or two bytes; a one-character tail cannot occur. */
  function DecodeDigits(s: string): (b: seq<byte>)
    requires AllDigits(s) && |s| % 4 != 1
    ensures |b| == 3 * (|s| / 4) + (if |s| % 4 == 0 then 0 else |s| % 4 - 1)
  {
    if |s| == 0 then []
    else if |s| == 2 then DecodeGroup(s + "AA")[..1]
    else if |s| == 3 then DecodeGroup(s + "A")[..2]
    else DecodeGroup(s[..4]) + DecodeDigits(s[4..])
  }

  /** `atob(s)`: `None` where `atob` throws `InvalidCharacterError`. */
  function ForgivingDecode(s: string): Option<seq<byte>> {
    var t := StripPadding(RemoveAsciiWhitespace(s));
    if |t| % 4 == 1 || !AllDigits(t) then None else Some(DecodeDigits(t))
  }

  /** `btoa(atob(s)) === s`, where a throwing `atob` gives `false`. */
  predicate IsBase64(s: string) {
    match ForgivingDecode(s)
    case None => false
    case Some(b) => Encode(b) == s
  }

  /** Decoding the digits of one group of three bytes gives the bytes back. */
  lemma GroupRoundTrip(b0: byte, b1: byte, b2: byte)
    ensures (b0 / 4) * 4 + ((b0 % 4) * 16 + b1 / 16) / 16 == b0
    ensures (((b0 % 4) * 16 + b1 / 16) % 16) * 16 + ((b1 % 16) * 4 + b2 / 64) / 4 == b1
    ensures (((b1 % 16) * 4 + b2 / 64) % 4) * 64 + b2 % 64 == b2
  {
    assert ((b0 % 4) * 16 + b1 / 16) / 16 == b0 % 4;
    assert ((b0 % 4) * 16 + b1 / 16) % 16 == b1 / 16;
    assert ((b1 % 16) * 4 + b2 / 64) / 4 == b1 % 16;
    assert ((b1 % 16) * 4 + b2 / 64) % 4 == b2 / 64;
  }

  lemma GroupDecodeEncode(b0: byte, b1: byte, b2: byte)
    ensures DecodeGroup(EncodeGroup(b0, b1, b2)) == [b0, b1, b2]
  {
    GroupRoundTrip(b0, b1, b2);
    DigitRoundTrip(b0 / 4); DigitRoundTrip((b0 % 4) * 16 + b1 / 16);
    DigitRoundTrip((b1 % 16) * 4 + b2 / 64); DigitRoundTrip(b2 % 64);
  }

  lemma {:induction false} DigitsRoundTrip(b: seq<byte>)
    ensures DecodeDigits(EncodeDigits(b)) == b
    decreases |b|
  {
    if |b| == 1 {
      OneByteRoundTrip(b[0]);
    } else if |b| == 2 {
      TwoBytesRoundTrip(b[0], b[1]);
    } else if |b| > 2 {
      var s := EncodeDigits(b);
      var g := EncodeGroup(b[0], b[1], b[2]);
      assert s[..4] == g && s[4..] == EncodeDigits(b[3..]);
      GroupDecodeEncode(b[0], b[1], b[2]);
      DigitsRoundTrip(b[3..]);
      assert b == b[..3] + b[3..];
    }
  }

  lemma OneByteRoundTrip(x: byte)
    ensures DecodeDigits(EncodeDigits([x])) == [x]
  {
    var g := EncodeGroup(x, 0, 0);
    assert g[..2] + "AA" == g by { assert g[2] == 'A' && g[3] == 'A'; }
    GroupDecodeEncode(x, 0, 0);
  }

  lemma TwoBytesRoundTrip(x: byte, y: byte)
    ensures DecodeDigits(EncodeDigits([x, y])) == [x, y]
  {
    var g := EncodeGroup(x, y, 0);
    assert g[..3] + "A" == g by { assert g[3] == 'A'; }
    GroupDecodeEncode(x, y, 0);
  }

  lemma NoWhitespaceInEncoding(b: seq<byte>)
    ensures forall i :: 0 <= i < |Encode(b)| ==> !IsAsciiWhitespace(Encode(b)[i])
  {
    var d := EncodeDigits(b);
    forall i | 0 <= i < |Encode(b)| ensures !IsAsciiWhitespace(Encode(b)[i]) {
      if i < |d| { assert IsDigitChar(Encode(b)[i]); }
    }
  }

  lemma StripPaddingOfEncoding(b: seq<byte>)
    ensures StripPadding(Encode(b)) == EncodeDigits(b)
  {
    var d := EncodeDigits(b);
    var s := Encode(b);
    if |b| % 3 == 1 {
      assert s[|s| - 2..] == "==";
      assert s[..|s| - 2] == d;
    } else if |b| % 3 == 2 {
      assert |d| >= 1 && s[|s| - 2] == d[|d| - 1];
      assert s[|s| - 2..] != "==" by { assert IsDigitChar(d[|d| - 1]); }
      assert s[..|s| - 1] == d;
    } else {
      assert s == d;
      if |s| >= 2 { assert s[|s| - 1] == d[|d| - 1]; assert IsDigitChar(d[|d| - 1]); }
    }
  }

  /** `atob(btoa(x)) === x` for every binary string `x`. */
  lemma DecodeEncode(b: seq<byte>)
    ensures ForgivingDecode(Encode(b)) == Some(b)
  {
    NoWhitespaceInEncoding(b);
    StripPaddingOfEncoding(b);
    DigitsRoundTrip(b);
  }

  /** `isBase64` holds exactly for the canonical encodings of byte strings,
      the empty string included. */
  lemma IsBase64Iff(s: string)
    ensures IsBase64(s) <==> exists b :: Encode(b) == s
  {
    if exists b :: Encode(b) == s {
      var b :| Encode(b) == s;
      DecodeEncode(b);
    }
  }

  /** A string accepted by `isBase64` decodes to bytes that encode back to it;
      in particular it has no whitespace and its length is a multiple of four. */
  lemma IsBase64Canonical(s: string)
    requires IsBase64(s)
    ensures ForgivingDecode(s).Some? && Encode(ForgivingDecode(s).value) == s
    ensures |s| % 4 == 0 && forall i :: 0 <= i < |s| ==> !IsAsciiWhitespace(s[i])
  {
    NoWhitespaceInEncoding(ForgivingDecode(s).value);
  }

  /** The empty string passes `isBase64` (`btoa(atob(""))` is `""`). */
  lemma EmptyIsBase64()
    ensures IsBase64("")
  {
    assert Encode([]) == "";
    DecodeEncode([]);
  }

  /** An unpadded or whitespace-carrying encoding fails `isBase64` even though
      `atob` accepts it. */
  lemma NonCanonicalRejected()
    ensures ForgivingDecode("YQ").Some? && !IsBase64("YQ")
    ensures !IsBase64("YQ== ")
  {
    UnpaddedDecodes();
    if IsBase64("YQ") { IsBase64Canonical("YQ"); }
    if IsBase64("YQ== ") { IsBase64Canonical("YQ== "); }
  }

  /** `atob` accepts the two digits of one byte without padding. */
  lemma UnpaddedDecodes()
    ensures ForgivingDecode("YQ").Some?
  {
    assert RemoveAsciiWhitespace("YQ") == "YQ";
    assert StripPadding("YQ") == "YQ";
    assert AllDigits("YQ");
  }

  lemma PaddedAccepted()
    ensures IsBase64("YQ==")
  {
    assert EncodeGroup(97, 0, 0) == "YQAA";
    assert Encode([97]) == "YQ==";
    DecodeEncode([97]);
  }

  /** The bytes as a binary string (code units 0-255), as `atob` returns them. */
  function BinaryString(b: seq<byte>): (s: string)
    ensures |s| == |b| && forall i :: 0 <= i < |b| ==> s[i] as int == b[i]
  {
    if b == [] then "" else [b[0] as char] + BinaryString(b[1..])
  }
}

/**
 * Percent-encoding as PHP's `rawurlencode` does it: section 2.1 of RFC 3986,
 * leaving the unreserved characters of section 2.3 as they are.
 */
module Rfc3986 {
  import opened PhpStrings

  /** `A-Z a-z 0-9 - . _ ~`, the unreserved set of section 2.3 of RFC 3986. */
  predicate Unreserved(c: char) {
    'A' <= c <= 'Z' || 'a' <= c <= 'z' || '0' <= c <= '9' || c == '-' || c == '.' || c == '_' || c == '~'
  }

  predicate IsHexDigit(c: char) {
    '0' <= c <= '9' || 'A' <= c <= 'F' || 'a' <= c <= 'f'
  }

  /** An upper-case hexadecimal digit, as `rawurlencode` writes them. */
  function HexDigit(n: nat): (c: Octet)
    requires n < 16
    ensures IsHexDigit(c)
  {
    if n < 10 then ('0' as int + n) as char else ('A' as int + n - 10) as char
  }

  function HexValue(c: char): (n: nat)
    requires IsHexDigit(c)
    ensures n < 16
  {
    if c <= '9' then c as int - '0' as int
    else if c <= 'F' then c as int - 'A' as int + 10
    else c as int - 'a' as int + 10
  }

  /**
   * One byte: an unreserved byte stands for itself, any other is `%` and two
   * hex digits. (The `% 16` on the high digit only matters for characters
   * above 255, which no PHP string holds.)
   */
  function EncodeByte(c: Octet): Bytes {
    if Unreserved(c) then [c] else ['%', HexDigit(c as int / 16 % 16), HexDigit(c as int % 16)]
  }

  /** `rawurlencode`: each byte becomes itself or a three-byte escape. */
  function RawUrlEncode(s: Bytes): (r: Bytes)
    ensures |s| <= |r| <= 3 * |s|
  {
    if s == [] then [] else EncodeByte(s[0]) + RawUrlEncode(s[1..])
  }

  /** The hexadecimal digits `rawurlencode` writes, in upper case. */
  const UpperHex: Bytes := "0123456789ABCDEF"

  lemma HexDigitIsUpperHex(n: nat)
    requires n < 16
    ensures HexDigit(n) == UpperHex[n]
  {
  }

  /** `rawurlencode` works byte by byte: a concatenation encodes as the concatenation of the encodings. */
  lemma {:induction false} RawUrlEncodeAppend(a: Bytes, b: Bytes)
    ensures RawUrlEncode(a + b) == RawUrlEncode(a) + RawUrlEncode(b)
  {
    if a == [] {
      assert a + b == b;
    } else {
      assert (a + b)[1..] == a[1..] + b;
      RawUrlEncodeAppend(a[1..], b);
    }
  }

  /** One byte: an unreserved byte is kept, any other becomes `%` and its two upper-case hex digits. */
  lemma RawUrlEncodeByte(c: Octet)
    requires c <= 'ÿ'
    ensures Unreserved(c) ==> RawUrlEncode([c]) == [c]
    ensures !Unreserved(c) ==> RawUrlEncode([c]) == ['%', UpperHex[c as int / 16], UpperHex[c as int % 16]]
  {
    assert [c][1..] == [];
    HexDigitIsUpperHex(c as int / 16);
    HexDigitIsUpperHex(c as int % 16);
  }

  /** Decoding of percent-encoded bytes (section 2.1 of RFC 3986). */
  function PercentDecode(s: Bytes): Bytes {
    if s == [] then []
    else if |s| >= 3 && s[0] == '%' && IsHexDigit(s[1]) && IsHexDigit(s[2]) then
      [(HexValue(s[1]) * 16 + HexValue(s[2])) as char] + PercentDecode(s[3..])
    else [s[0]] + PercentDecode(s[1..])
  }

  /** The encoding of a byte is undone by the decoder, whatever follows it. */
  lemma DecodeEncodeByte(c: Octet, t: Bytes)
    requires c <= 'ÿ'
    ensures PercentDecode(EncodeByte(c) + t) == [c] + PercentDecode(t)
  {
    var e := EncodeByte(c) + t;
    if Unreserved(c) {
      assert e[1..] == t;
    } else {
      var hi, lo := c as int / 16, c as int % 16;
      assert HexValue(HexDigit(hi)) == hi && HexValue(HexDigit(lo)) == lo;
      assert e[3..] == t;
      assert (hi * 16 + lo) as char == c;
    }
  }

  /** Decoding recovers exactly the bytes `rawurlencode` was given. */
  lemma {:induction false} DecodeEncode(s: Bytes)
    requires IsByteString(s)
    ensures PercentDecode(RawUrlEncode(s)) == s
  {
    if s != [] {
      DecodeEncodeByte(s[0], RawUrlEncode(s[1..]));
      DecodeEncode(s[1..]);
      assert s == [s[0]] + s[1..];
    }
  }

  /** Every byte of the encoding is unreserved or `%`. */
  lemma {:induction false} EncodedAlphabet(s: Bytes)
    ensures forall i | 0 <= i < |RawUrlEncode(s)| :: Unreserved(RawUrlEncode(s)[i]) || RawUrlEncode(s)[i] == '%'
  {
    if s != [] {
      EncodedAlphabet(s[1..]);
      var h, t := EncodeByte(s[0]), RawUrlEncode(s[1..]);
      assert RawUrlEncode(s) == h + t;
      forall i | 0 <= i < |h + t|
        ensures Unreserved((h + t)[i]) || (h + t)[i] == '%'
      {
        if i >= |h| {
          assert (h + t)[i] == t[i - |h|];
        }
      }
    }
  }

  /** The delimiters the query string and the signing string use never occur in an encoded value. */
  lemma EncodedHasNoDelimiters(s: Bytes)
    ensures '&' !in RawUrlEncode(s) && '=' !in RawUrlEncode(s) && '\n' !in RawUrlEncode(s)
  {
    EncodedAlphabet(s);
  }

  /** A value made of unreserved bytes passes through unchanged. */
  lemma {:induction false} EncodeUnreserved(s: Bytes)
    requires forall i | 0 <= i < |s| :: Unreserved(s[i])
    ensures RawUrlEncode(s) == s
  {
    if s != [] {
      EncodeUnreserved(s[1..]);
      assert s == [s[0]] + s[1..];
    }
  }

  /** A space becomes `%20`, never `+`. */
  lemma EncodeSpace()
    ensures RawUrlEncode(" ") == "%20"
  {
    assert EncodeByte(' ') == "%20";
  }
}

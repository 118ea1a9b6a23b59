/**
 * The hash and encoding functions of the PHP runtime that the client calls.
 * Their internals are not part of this model: they are carried as functions
 * a caller supplies, so all the model knows of them is that equal inputs give
 * equal outputs.
 */
module Crypto {
  import opened PhpStrings

  datatype Primitives = Primitives(
    /** `md5($s)`: the MD5 digest (RFC 1321) as 32 lower-case hex digits. */
    md5Hex: Bytes -> Bytes,
    /** `hash_hmac('sha256', $data, $key, TRUE)`: the raw HMAC-SHA256 (RFC 2104) of data under key. */
    hmacSha256: (Bytes, Bytes) -> Bytes,
    /** `base64_encode` (section 4 of RFC 4648). */
    base64: Bytes -> Bytes)
}

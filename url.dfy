/**
 * The part of PHP's `parse_url` the signer relies on: host, port and path of
 * `scheme://host[:port][/path]`, of the scheme-relative `//host[:port][/path]`,
 * of `host:port[/path]` and of `scheme:path`. A string with neither `:` nor a
 * leading `//` is all path.
 */
module Url {
  import opened Wrappers
  import opened PhpStrings

  /** The components `parse_url` reports; `None` is a key it does not set. */
  datatype UrlParts = UrlParts(host: Option<Bytes>, port: Option<nat>, path: Option<Bytes>)

  /** What the signer sees when `parse_url` returns false: no component is set. */
  const Unparsable := UrlParts(None, None, None)

  /** The largest port `parse_url` accepts. */
  const MaxPort := 65535

  /** The most digits `parse_url` reads as a port. */
  const MaxPortDigits := 5

  /** The bytes `parse_url` accepts in a scheme name. */
  predicate IsSchemeByte(c: Octet) {
    IsAsciiLower(c) || IsAsciiUpper(c) || IsDigit(c) || c == '+' || c == '-' || c == '.'
  }

  predicate IsScheme(s: Bytes) {
    s != [] && forall i | 0 <= i < |s| :: IsSchemeByte(s[i])
  }

  predicate StartsWithSlashes(s: Bytes) {
    |s| >= 2 && s[0] == '/' && s[1] == '/'
  }

  /** The number of decimal digits `s` starts with. */
  function DigitRun(s: Bytes): (r: nat)
    ensures r <= |s| && AllDigits(s[..r])
    ensures r < |s| ==> !IsDigit(s[r])
  {
    if s == [] || !IsDigit(s[0]) then 0
    else
      var r := 1 + DigitRun(s[1..]);
      assert s[..r] == [s[0]] + s[1..][..r - 1];
      r
  }

  /**
   * After `scheme:`, a text of one to five digits followed by the end or a
   * `/` is read as a port, so that `host:port` parses as host and port.
   */
  predicate LooksLikePort(after: Bytes) {
    var d := DigitRun(after);
    1 <= d <= MaxPortDigits && (d == |after| || after[d] == '/')
  }

  /** `host[:port]`: the host before the last `:`, and after it a decimal port of at most five digits. */
  function ParseAuthority(auth: Bytes, path: Option<Bytes>): (r: UrlParts)
    ensures r.host.Some? ==> r.host.value != [] && r.host.value <= auth && r.path == path
    ensures r.port.Some? ==> r.port.value <= MaxPort
    ensures r.host.None? ==> r == Unparsable
  {
    var k := LastIndexOf(auth, ':');
    var host := if k.None? then auth else auth[..k.value];
    var portText := if k.None? then [] else auth[k.value + 1..];
    if host == [] then Unparsable
    else if portText == [] then UrlParts(Some(host), None, path)
    else if !AllDigits(portText) || |portText| > MaxPortDigits || DecimalValue(portText) > MaxPort then Unparsable
    else UrlParts(Some(host), Some(DecimalValue(portText)), path)
  }

  /** `host[:port][/path]`: the authority runs up to the first `/`, and the path is the rest. */
  function ParseNetwork(rest: Bytes): (r: UrlParts)
    ensures r.port.Some? ==> r.port.value <= MaxPort
    ensures r.host.Some? ==> r.host.value != []
    ensures r.host.Some? && r.path.Some? ==> r.path.value != [] && r.path.value[0] == '/'
    ensures r.host.Some? ==> forall c | c in r.host.value :: c in rest
    ensures r.path.Some? ==> forall c | c in r.path.value :: c in rest
    ensures r.host.None? ==> r == Unparsable
  {
    var j := IndexOf(rest, '/');
    if j.None? then ParseAuthority(rest, None)
    else ParseAuthority(rest[..j.value], Some(rest[j.value..]))
  }

  /**
   * How `parse_url` splits the URL shapes above, before it cleans the
   * components. Every component is cut from the URL, a port is in range, and
   * a path after a host starts with `/`.
   */
  function SplitUrl(u: Bytes): (r: UrlParts)
    ensures r.port.Some? ==> r.port.value <= MaxPort
    ensures r.host.Some? ==> r.host.value != []
    ensures r.host.Some? && r.path.Some? ==> r.path.value != [] && r.path.value[0] == '/'
    ensures r.host.Some? ==> forall c | c in r.host.value :: c in u
    ensures r.path.Some? ==> forall c | c in r.path.value :: c in u
    ensures ':' !in u && !StartsWithSlashes(u) ==> r == UrlParts(None, None, Some(u))
  {
    var i := IndexOf(u, ':');
    if i.Some? && IsScheme(u[..i.value]) then
      var after := u[i.value + 1..];
      if after == [] then UrlParts(None, None, None) // a bare scheme: no host, port or path
      else if StartsWithSlashes(after) then ParseNetwork(after[2..])
      else if LooksLikePort(after) then ParseNetwork(u)
      else UrlParts(None, None, Some(after))
    else if StartsWithSlashes(u) then ParseNetwork(u[2..])
    else UrlParts(None, None, Some(u))
  }

  /** The control bytes 0x00-0x1F and 0x7F. */
  predicate IsControl(c: Octet) {
    c < ' ' || c as int == 0x7F
  }

  /** `parse_url` writes `_` in place of each control byte of a component. */
  function ReplaceControl(s: Bytes): (r: Bytes)
    ensures |r| == |s|
    ensures forall i | 0 <= i < |s| && IsControl(s[i]) :: r[i] == '_'
    ensures forall i | 0 <= i < |s| && !IsControl(s[i]) :: r[i] == s[i]
    ensures forall c | c in r :: !IsControl(c) && (c == '_' || c in s)
  {
    seq(|s|, i requires 0 <= i < |s| => if IsControl(s[i]) then '_' else s[i])
  }

  function ReplaceControlIn(s: Option<Bytes>): Option<Bytes> {
    if s.Some? then Some(ReplaceControl(s.value)) else None
  }

  /**
   * `parse_url` on the URL shapes above: split, then control bytes replaced
   * by `_` in the host and the path. A reported port is in range, a path
   * after a host starts with `/`, and the host and path hold no control byte
   * and nothing but the URL's bytes and `_`.
   */
  function ParseUrl(u: Bytes): (r: UrlParts)
    ensures r.port.Some? ==> r.port.value <= MaxPort
    ensures r.host.Some? ==> r.host.value != []
    ensures r.host.Some? && r.path.Some? ==> r.path.value != [] && r.path.value[0] == '/'
    ensures r.host.Some? ==> forall c | c in r.host.value :: !IsControl(c) && (c == '_' || c in u)
    ensures r.path.Some? ==> forall c | c in r.path.value :: !IsControl(c) && (c == '_' || c in u)
    ensures ':' !in u && !StartsWithSlashes(u) ==> r == UrlParts(None, None, Some(ReplaceControl(u)))
  {
    var parts := SplitUrl(u);
    UrlParts(ReplaceControlIn(parts.host), parts.port, ReplaceControlIn(parts.path))
  }

  /** `host[:port]` as a URL writes it. */
  function Authority(host: Bytes, port: Option<nat>): Bytes {
    host + (if port.Some? then ":" + NatToDecimal(port.value) else [])
  }

  /** Writes an absolute URL from its parts, the inverse of `ParseUrl`. */
  function RenderUrl(scheme: Bytes, host: Bytes, port: Option<nat>, path: Bytes): Bytes {
    scheme + "://" + Authority(host, port) + path
  }

  /** A well-formed absolute URL parses back into the parts it was written from. */
  lemma ParseRenderUrl(scheme: Bytes, host: Bytes, port: Option<nat>, path: Bytes)
    requires IsScheme(scheme)
    requires host != [] && ':' !in host && '/' !in host
    requires port.Some? ==> port.value <= MaxPort
    requires path == [] || path[0] == '/'
    ensures ParseUrl(RenderUrl(scheme, host, port, path))
         == UrlParts(Some(ReplaceControl(host)), port, if path == [] then None else Some(ReplaceControl(path)))
  {
    var after := "//" + (Authority(host, port) + path);
    assert RenderUrl(scheme, host, port, path) == scheme + ":" + after;
    ParseAfterScheme(scheme, after);
    assert after[2..] == Authority(host, port) + path;
    ParseRenderNetwork(host, port, path);
  }

  /** A scheme-relative `//host[:port][/path]` parses like an absolute URL, without the scheme. */
  lemma ParseRenderRelative(host: Bytes, port: Option<nat>, path: Bytes)
    requires host != [] && ':' !in host && '/' !in host
    requires port.Some? ==> port.value <= MaxPort
    requires path == [] || path[0] == '/'
    ensures ParseUrl("//" + Authority(host, port) + path)
         == UrlParts(Some(ReplaceControl(host)), port, if path == [] then None else Some(ReplaceControl(path)))
  {
    var u := "//" + Authority(host, port) + path;
    var i := IndexOf(u, ':');
    assert i.Some? ==> !IsSchemeByte(u[..i.value][0]);
    assert u[2..] == Authority(host, port) + path;
    ParseRenderNetwork(host, port, path);
  }

  /** `host:port[/path]` with no scheme reads as host and port, as `parse_url` reads `a.com:80`. */
  lemma ParseHostPort(host: Bytes, port: nat, path: Bytes)
    requires IsScheme(host)
    requires port <= MaxPort
    requires path == [] || path[0] == '/'
    ensures ParseUrl(host + ":" + NatToDecimal(port) + path)
         == UrlParts(Some(ReplaceControl(host)), Some(port), if path == [] then None else Some(ReplaceControl(path)))
  {
    DecimalRoundTrip(port);
    PortDigits(port);
    ParseHostDigits(host, NatToDecimal(port), path);
  }

  lemma ParseHostDigits(host: Bytes, d: Bytes, path: Bytes)
    requires IsScheme(host)
    requires d != [] && AllDigits(d) && |d| <= MaxPortDigits && DecimalValue(d) <= MaxPort
    requires path == [] || path[0] == '/'
    ensures SplitUrl(host + ":" + d + path)
         == UrlParts(Some(host), Some(DecimalValue(d)), if path == [] then None else Some(path))
  {
    var after := d + path;
    var auth := host + ":" + d;
    assert host + ":" + d + path == host + ":" + after == auth + path;
    DigitRunAppend(d, path);
    assert after[0] == d[0];
    assert path != [] ==> after[|d|] == path[0];
    ParsePortForm(host, after);
    SchemeHasNoDelimiters(host);
    assert ':' !in d && '/' !in d by {
      forall i | 0 <= i < |d| ensures d[i] != ':' && d[i] != '/' {
        assert IsDigit(d[i]);
      }
    }
    assert '/' !in auth;
    PathAfterAuthority(auth, path);
    ParseHostAndPort(host, d, if path == [] then None else Some(path));
  }

  lemma ParsePortForm(host: Bytes, after: Bytes)
    requires IsScheme(host)
    requires after != [] && IsDigit(after[0]) && LooksLikePort(after)
    ensures SplitUrl(host + ":" + after) == ParseNetwork(host + ":" + after)
  {
    ParseAfterScheme(host, after);
  }

  /** `scheme:path` without `//` and not a port, such as `mailto:x`, is all path after the scheme. */
  lemma ParseSchemePath(scheme: Bytes, rest: Bytes)
    requires IsScheme(scheme)
    requires rest != [] && !StartsWithSlashes(rest) && !IsDigit(rest[0])
    ensures ParseUrl(scheme + ":" + rest) == UrlParts(None, None, Some(ReplaceControl(rest)))
  {
    ParseAfterScheme(scheme, rest);
  }

  /** After a valid scheme and its `:`, the rest decides the shape. */
  lemma ParseAfterScheme(scheme: Bytes, after: Bytes)
    requires IsScheme(scheme)
    ensures SplitUrl(scheme + ":" + after)
         == if after == [] then UrlParts(None, None, None)
            else if StartsWithSlashes(after) then ParseNetwork(after[2..])
            else if LooksLikePort(after) then ParseNetwork(scheme + ":" + after)
            else UrlParts(None, None, Some(after))
  {
    var u := scheme + ":" + after;
    SchemeHasNoDelimiters(scheme);
    assert u == scheme + [':'] + after;
    IndexOfAfter(scheme, ':', after);
    assert u[..|scheme|] == scheme;
    assert u[|scheme| + 1..] == after;
  }

  lemma SchemeHasNoDelimiters(s: Bytes)
    requires IsScheme(s)
    ensures ':' !in s && '/' !in s
  {
    forall i | 0 <= i < |s| ensures s[i] != ':' && s[i] != '/' {
      assert IsSchemeByte(s[i]);
    }
  }

  /** The digit run of a number written before a non-digit is the whole number. */
  lemma {:induction false} DigitRunAppend(d: Bytes, t: Bytes)
    requires AllDigits(d)
    requires t == [] || !IsDigit(t[0])
    ensures DigitRun(d + t) == |d|
  {
    if d != [] {
      assert (d + t)[1..] == d[1..] + t;
      DigitRunAppend(d[1..], t);
    } else {
      assert d + t == t;
    }
  }

  /** An authority written from its parts, then a path, parses back into those parts. */
  lemma ParseRenderNetwork(host: Bytes, port: Option<nat>, path: Bytes)
    requires host != [] && ':' !in host && '/' !in host
    requires port.Some? ==> port.value <= MaxPort
    requires path == [] || path[0] == '/'
    ensures ParseNetwork(Authority(host, port) + path)
         == UrlParts(Some(host), port, if path == [] then None else Some(path))
  {
    AuthorityHasNoSlash(host, port);
    PathAfterAuthority(Authority(host, port), path);
    ParseRenderAuthority(host, port, if path == [] then None else Some(path));
  }

  /** The first `/` after an authority without one starts the path. */
  lemma PathAfterAuthority(auth: Bytes, path: Bytes)
    requires '/' !in auth
    requires path == [] || path[0] == '/'
    ensures path == [] ==> IndexOf(auth + path, '/').None? && auth + path == auth
    ensures path != [] ==>
      (IndexOf(auth + path, '/') == Some(|auth|) && (auth + path)[..|auth|] == auth && (auth + path)[|auth|..] == path)
  {
    if path == [] {
      assert auth + path == auth;
    } else {
      assert auth + path == auth + ['/'] + path[1..];
      IndexOfAfter(auth, '/', path[1..]);
    }
  }

  lemma AuthorityHasNoSlash(host: Bytes, port: Option<nat>)
    requires '/' !in host
    ensures '/' !in Authority(host, port)
  {
    if port.Some? {
      var d := NatToDecimal(port.value);
      assert forall i | 0 <= i < |d| :: d[i] != '/';
    }
  }

  /** A port in range is written in at most five digits. */
  lemma PortDigits(n: nat)
    requires n <= MaxPort
    ensures |NatToDecimal(n)| <= MaxPortDigits
  {
    assert Pow10(MaxPortDigits) == 100000;
    DecimalLength(n, MaxPortDigits);
  }

  lemma ParseRenderAuthority(host: Bytes, port: Option<nat>, path: Option<Bytes>)
    requires host != [] && ':' !in host
    requires port.Some? ==> port.value <= MaxPort
    ensures ParseAuthority(Authority(host, port), path) == UrlParts(Some(host), port, path)
  {
    if port.Some? {
      var d := NatToDecimal(port.value);
      DecimalRoundTrip(port.value);
      PortDigits(port.value);
      assert ':' !in d by {
        forall i | 0 <= i < |d| ensures d[i] != ':' {
          assert IsDigit(d[i]);
        }
      }
      ParseHostAndPort(host, d, path);
      assert Authority(host, port) == host + ":" + d;
    } else {
      assert Authority(host, port) == host;
      assert LastIndexOf(host, ':').None?;
    }
  }

  /** The port is the digits after the last `:`. */
  lemma ParseHostAndPort(host: Bytes, d: Bytes, path: Option<Bytes>)
    requires host != []
    requires d != [] && AllDigits(d) && ':' !in d
    requires |d| <= MaxPortDigits && DecimalValue(d) <= MaxPort
    ensures ParseAuthority(host + ":" + d, path) == UrlParts(Some(host), Some(DecimalValue(d)), path)
  {
    var auth := host + ":" + d;
    LastIndexOfBefore(host, ':', d);
    assert auth == host + [':'] + d;
    assert auth[..|host|] == host && auth[|host| + 1..] == d;
  }
}

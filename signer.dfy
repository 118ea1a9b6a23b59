/**
 * `PaymentnepalService::sign`: the request signature is the base64 of the
 * HMAC-SHA256, under the service secret, of the four-line signing string
 * `METHOD\nHOST\nPATH\nQUERY`.
 */
module Signer {
  import opened Wrappers
  import opened PhpStrings
  import opened PhpArray
  import opened KeySort
  import opened Query
  import opened Url
  import opened Crypto

  /** The bytes `rtrim` strips from the end of the path. */
  const PathSeparators: set<Octet> := {'/', '\\'}

  /** The default HTTP port, the one the signing string never mentions. */
  const DefaultPort := 80

  /**
   * The path line: empty when the URL has no path, otherwise the path with
   * its trailing `/` and `\` replaced by exactly one `/`.
   */
  function CanonicalPath(path: Option<Bytes>): (r: Bytes)
    ensures path.None? ==> r == []
    ensures path.Some? ==> |r| >= 1 && r[|r| - 1] == '/'
    ensures path.Some? ==> |r| == 1 || r[|r| - 2] !in PathSeparators
    ensures path.Some? ==> r[..|r| - 1] <= path.value
    ensures path.Some? ==> forall i | |r| - 1 <= i < |path.value| :: path.value[i] in PathSeparators
  {
    if path.None? then [] else TrimRight(path.value, PathSeparators) + "/"
  }

  /** A path already in canonical form is left as it is. */
  lemma CanonicalPathIdempotent(p: Bytes)
    ensures CanonicalPath(Some(CanonicalPath(Some(p)))) == CanonicalPath(Some(p))
  {
    var t := TrimRight(p, PathSeparators);
    var c := t + "/";
    assert c[..|c| - 1] == t;
    assert TrimRight(c, PathSeparators) == TrimRight(t, PathSeparators);
    assert TrimRight(t, PathSeparators) == t;
  }

  /** One more trailing separator does not change the path line. */
  lemma TrailingSeparatorIgnored(p: Bytes, c: Octet)
    requires c in PathSeparators
    ensures CanonicalPath(Some(p + [c])) == CanonicalPath(Some(p))
  {
    assert (p + [c])[..|p|] == p;
  }

  /** The host `parse_url` found, or the empty string. */
  function HostName(parts: UrlParts): Bytes {
    if parts.host.Some? then parts.host.value else []
  }

  /** Whether the host line carries the port. */
  predicate ShowsPort(parts: UrlParts, skipPort: bool) {
    parts.port.Some? && parts.port.value != DefaultPort && !skipPort
  }

  /** The host line: the host, followed by `:port` when the port is shown. */
  function CanonicalHost(parts: UrlParts, skipPort: bool): (r: Bytes)
    ensures HostName(parts) <= r
    ensures |r| > |HostName(parts)| <==> ShowsPort(parts, skipPort)
    ensures ShowsPort(parts, skipPort) ==>
      r[|HostName(parts)|] == ':' && AllDigits(r[|HostName(parts)| + 1..])
      && DecimalValue(r[|HostName(parts)| + 1..]) == parts.port.value
    ensures ShowsPort(parts, skipPort) ==> |r| >= |HostName(parts)| + 2
    ensures |r| > |HostName(parts)| + 2 ==> r[|HostName(parts)| + 1] != '0'
  {
    var host := HostName(parts);
    if ShowsPort(parts, skipPort) then
      var r := host + ":" + NatToDecimal(parts.port.value);
      assert r[|host| + 1..] == NatToDecimal(parts.port.value);
      DecimalRoundTrip(parts.port.value);
      r
    else host
  }

  /** The four lines of the signing string, in order. */
  function SigningLines(httpMethod: Bytes, url: Bytes, params: Fields, skipPort: bool): (r: seq<Bytes>)
    ensures |r| == 4
  {
    var parts := ParseUrl(Lower(url));
    [Upper(httpMethod), CanonicalHost(parts, skipPort), CanonicalPath(parts.path), BuildQuery(SortByKey(params))]
  }

  /** The string `sign` authenticates: the four lines joined by `\n`. */
  function SigningString(httpMethod: Bytes, url: Bytes, params: Fields, skipPort: bool): Bytes {
    Join(SigningLines(httpMethod, url, params, skipPort), '\n')
  }

  /** The value `sign` returns. */
  function Signature(prims: Primitives, httpMethod: Bytes, url: Bytes, params: Fields, secretKey: Bytes, skipPort: bool): Bytes {
    prims.base64(prims.hmacSha256(SigningString(httpMethod, url, params, skipPort), secretKey))
  }

  /** `sign($method, $url, $params, $secretKey, $skipPort)`. */
  method Sign(prims: Primitives, httpMethod: Bytes, url: Bytes, params: Fields, secretKey: Bytes, skipPort: bool := false)
    returns (signature: Bytes)
    ensures signature == Signature(prims, httpMethod, url, params, secretKey, skipPort)
  {
    var sorted := KSort(params);
    var lowered := Lower(url);
    var urlParsed := ParseUrl(lowered);
    var path := CanonicalPath(urlParsed.path);
    var host := if urlParsed.host.Some? then urlParsed.host.value else "";
    if urlParsed.port.Some? && urlParsed.port.value != DefaultPort {
      if !skipPort {
        host := host + ":" + NatToDecimal(urlParsed.port.value);
      }
    }
    assert host == CanonicalHost(urlParsed, skipPort);
    var upper := Upper(httpMethod);
    var query := HttpBuildQueryRfc3986(sorted);
    assert [upper, host, path, query] == SigningLines(httpMethod, url, params, skipPort);
    var data := Join([upper, host, path, query], '\n');
    signature := prims.base64(prims.hmacSha256(data, secretKey));
  }

  /**
   * Because the parameters are key-sorted first, the signature depends only
   * on which key => value pairs they hold, not on their order.
   */
  lemma SigningOrderIndependent(prims: Primitives, httpMethod: Bytes, url: Bytes, a: Fields, b: Fields, secretKey: Bytes, skipPort: bool)
    requires UniqueKeys(a) && UniqueKeys(b) && SamePairs(a, b)
    ensures SigningString(httpMethod, url, a, skipPort) == SigningString(httpMethod, url, b, skipPort)
    ensures Signature(prims, httpMethod, url, a, secretKey, skipPort) == Signature(prims, httpMethod, url, b, secretKey, skipPort)
  {
    SortByKeyOrderIndependent(a, b);
  }

  /** The URL is lower-cased and the method upper-cased: their case never matters. */
  lemma SigningCaseInsensitive(httpMethod: Bytes, url: Bytes, params: Fields, skipPort: bool)
    ensures SigningString(Lower(httpMethod), Lower(url), params, skipPort) == SigningString(httpMethod, url, params, skipPort)
  {
    LowerIdempotent(url);
    UpperOfLower(httpMethod);
  }

  lemma NoNewlineUpper(s: Bytes)
    requires '\n' !in s
    ensures '\n' !in Upper(s)
  {
    forall i | 0 <= i < |s|
      ensures Upper(s)[i] != '\n'
    {
    }
  }

  /** `parse_url` leaves no line break in a host or path: it is a control byte. */
  lemma NoNewlineParts(u: Bytes)
    ensures ParseUrl(u).host.Some? ==> '\n' !in ParseUrl(u).host.value
    ensures ParseUrl(u).path.Some? ==> '\n' !in ParseUrl(u).path.value
  {
    assert IsControl('\n');
  }

  lemma NoNewlineHost(parts: UrlParts, skipPort: bool)
    requires parts.host.Some? ==> '\n' !in parts.host.value
    ensures '\n' !in CanonicalHost(parts, skipPort)
  {
    if ShowsPort(parts, skipPort) {
      var d := NatToDecimal(parts.port.value);
      assert forall i | 0 <= i < |d| :: d[i] != '\n';
    }
  }

  lemma NoNewlinePath(path: Option<Bytes>)
    requires path.Some? ==> '\n' !in path.value
    ensures '\n' !in CanonicalPath(path)
  {
    if path.Some? {
      var t := TrimRight(path.value, PathSeparators);
      assert t == path.value[..|t|];
    }
  }

  lemma NoNewlineQuery(params: Fields)
    requires forall k | 0 <= k < |params| :: '\n' !in params[k].key
    ensures '\n' !in BuildQuery(SortByKey(params))
  {
    var sorted := SortByKey(params);
    forall k | 0 <= k < |sorted|
      ensures '\n' !in sorted[k].key
    {
      assert sorted[k] in multiset(params);
      var j :| 0 <= j < |params| && params[j] == sorted[k];
    }
    NoNewlineInQuery(sorted);
  }

  lemma NoNewlineLines(httpMethod: Bytes, url: Bytes, params: Fields, skipPort: bool)
    requires '\n' !in httpMethod
    requires forall k | 0 <= k < |params| :: '\n' !in params[k].key
    ensures forall k | 0 <= k < 4 :: '\n' !in SigningLines(httpMethod, url, params, skipPort)[k]
  {
    var parts := ParseUrl(Lower(url));
    NoNewlineParts(Lower(url));
    NoNewlineHost(parts, skipPort);
    NoNewlinePath(parts.path);
    NoNewlineUpper(httpMethod);
    NoNewlineQuery(params);
    NoNewlineFour(Upper(httpMethod), CanonicalHost(parts, skipPort), CanonicalPath(parts.path), BuildQuery(SortByKey(params)));
  }

  lemma NoNewlineFour(a: Bytes, b: Bytes, c: Bytes, d: Bytes)
    requires '\n' !in a && '\n' !in b && '\n' !in c && '\n' !in d
    ensures forall k | 0 <= k < 4 :: '\n' !in [a, b, c, d][k]
  {
  }

  /**
   * The signing string can be split back into its four lines whenever the
   * method and the parameter keys hold no line break (`parse_url` leaves
   * none in the host or path), so two requests that differ in one line
   * never share a signing string.
   */
  lemma SigningStringLines(httpMethod: Bytes, url: Bytes, params: Fields, skipPort: bool)
    requires '\n' !in httpMethod
    requires forall k | 0 <= k < |params| :: '\n' !in params[k].key
    ensures Split(SigningString(httpMethod, url, params, skipPort), '\n') == SigningLines(httpMethod, url, params, skipPort)
  {
    NoNewlineLines(httpMethod, url, params, skipPort);
    SplitJoin(SigningLines(httpMethod, url, params, skipPort), '\n');
  }
}

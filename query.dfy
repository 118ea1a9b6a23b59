/**
 * `PaymentnepalService::_http_build_query_rfc_3986`: the canonical query
 * string the signer feeds into the signature, `k1=v1&k2=v2...` with keys as
 * given and values percent-encoded.
 */
module Query {
  import opened Wrappers
  import opened PhpStrings
  import opened PhpArray
  import opened Rfc3986

  /** One `key=value` piece: the key raw, the value through `rawurlencode`. */
  function Segment(e: Entry): Bytes {
    e.key + "=" + RawUrlEncode(e.value)
  }

  function Segments(f: Fields): (r: seq<Bytes>)
    ensures |r| == |f|
  {
    if f == [] then [] else Segments(f[..|f| - 1]) + [Segment(f[|f| - 1])]
  }

  /** What the `foreach` loop has appended to `$r` after the pairs of `f`. */
  function Accumulated(f: Fields): Bytes {
    if f == [] then [] else Accumulated(f[..|f| - 1]) + "&" + Segment(f[|f| - 1])
  }

  /** The result of `_http_build_query_rfc_3986($f)`: the loop's text with `&` trimmed from both ends. */
  function BuildQuery(f: Fields): Bytes {
    Trim(Accumulated(f), {'&'})
  }

  /** `_http_build_query_rfc_3986` with the default `&` separator. */
  method HttpBuildQueryRfc3986(queryData: Fields) returns (r: Bytes)
    ensures r == BuildQuery(queryData)
  {
    r := "";
    if queryData != [] {
      var i := 0;
      while i < |queryData|
        invariant 0 <= i <= |queryData|
        invariant r == Accumulated(queryData[..i])
      {
        var e := queryData[i];
        assert queryData[..i + 1][..i] == queryData[..i];
        r := r + "&";
        r := r + e.key;
        r := r + "=";
        r := r + RawUrlEncode(e.value);
        i := i + 1;
      }
      assert queryData[..|queryData|] == queryData;
    }
    r := Trim(r, {'&'});
  }

  /** The loop's text is the segments joined by `&`, behind one leading `&`. */
  lemma {:induction false} AccumulatedIsJoin(f: Fields)
    requires f != []
    ensures Accumulated(f) == "&" + Join(Segments(f), '&')
  {
    var n := |f|;
    if n > 1 {
      AccumulatedIsJoin(f[..n - 1]);
      assert Segments(f)[..n - 1] == Segments(f[..n - 1]);
    }
  }

  lemma SegmentEnd(e: Entry)
    ensures |Segment(e)| > 0 && Segment(e)[|Segment(e)| - 1] != '&'
  {
    EncodedHasNoDelimiters(e.value);
    var s := Segment(e);
    var enc := RawUrlEncode(e.value);
    if enc != [] {
      assert s[|s| - 1] == enc[|enc| - 1];
    }
  }

  lemma JoinEnds(f: Fields)
    requires f != []
    requires f[0].key == [] || f[0].key[0] != '&'
    ensures var j := Join(Segments(f), '&'); |j| > 0 && j[0] != '&' && j[|j| - 1] != '&'
  {
    var n := |f|;
    var segs := Segments(f);
    var j := Join(segs, '&');
    SegmentEnd(f[n - 1]);
    SegmentsAt(f, 0);
    assert |segs[0]| > 0 && segs[0][0] != '&';
    JoinFirst(segs);
    assert segs[n - 1] == Segment(f[n - 1]);
    if n > 1 {
      assert j == Join(segs[..n - 1], '&') + ['&'] + segs[n - 1];
    }
  }

  lemma {:induction false} SegmentsAt(f: Fields, i: nat)
    requires i < |f|
    ensures Segments(f)[i] == Segment(f[i])
  {
    if i < |f| - 1 {
      SegmentsAt(f[..|f| - 1], i);
    }
  }

  lemma {:induction false} JoinFirst(segs: seq<Bytes>)
    requires |segs| >= 1 && |segs[0]| > 0
    ensures |Join(segs, '&')| > 0 && Join(segs, '&')[0] == segs[0][0]
  {
    if |segs| > 1 {
      JoinFirst(segs[..|segs| - 1]);
    }
  }

  /**
   * The query string is `k1=v1&k2=v2...` in the array's order, with no `&`
   * in front or behind; the empty array gives the empty string. (A first key
   * that itself begins with `&` would lose those bytes to the trim.)
   */
  lemma BuildQueryIsJoin(f: Fields)
    requires f == [] || f[0].key == [] || f[0].key[0] != '&'
    ensures BuildQuery(f) == Join(Segments(f), '&')
  {
    if f != [] {
      var j := Join(Segments(f), '&');
      AccumulatedIsJoin(f);
      JoinEnds(f);
      TrimJoined(j);
    }
  }

  lemma TrimJoined(j: Bytes)
    requires |j| > 0 && j[0] != '&' && j[|j| - 1] != '&'
    ensures Trim("&" + j, {'&'}) == j
  {
    var s := "&" + j;
    var amp: set<Octet> := {'&'};
    assert s[0] in amp && s[1..] == j;
    assert j[0] !in amp && j[|j| - 1] !in amp;
    assert TrimLeft(s, amp) == TrimLeft(j, amp) == j;
    assert TrimRight(j, amp) == j;
  }

  /** Reads one `key=value` piece back. */
  function ParseSegment(seg: Bytes): Entry {
    var i := IndexOf(seg, '=');
    if i.None? then Entry(seg, "") else Entry(seg[..i.value], PercentDecode(seg[i.value + 1..]))
  }

  function ParseSegments(segs: seq<Bytes>): (r: Fields)
    ensures |r| == |segs|
  {
    if segs == [] then [] else ParseSegments(segs[..|segs| - 1]) + [ParseSegment(segs[|segs| - 1])]
  }

  /** Reads a query string back into its pairs. */
  function ParseQuery(q: Bytes): Fields {
    if q == [] then [] else ParseSegments(Split(q, '&'))
  }

  lemma ParseSegmentOfSegment(e: Entry)
    requires '=' !in e.key && IsByteString(e.value)
    ensures ParseSegment(Segment(e)) == e
  {
    var s := Segment(e);
    assert s[|e.key|] == '=';
    assert s[..|e.key|] == e.key;
    assert IndexOf(s, '=') == Some(|e.key|);
    assert s[|e.key| + 1..] == RawUrlEncode(e.value);
    DecodeEncode(e.value);
  }

  lemma {:induction false} ParseSegmentsAt(segs: seq<Bytes>, i: nat)
    requires i < |segs|
    ensures ParseSegments(segs)[i] == ParseSegment(segs[i])
  {
    if i < |segs| - 1 {
      ParseSegmentsAt(segs[..|segs| - 1], i);
    }
  }

  lemma ParseSegmentsOfSegments(f: Fields)
    requires forall k | 0 <= k < |f| :: '=' !in f[k].key && IsByteString(f[k].value)
    ensures ParseSegments(Segments(f)) == f
  {
    var segs := Segments(f);
    forall i | 0 <= i < |f|
      ensures ParseSegments(segs)[i] == f[i]
    {
      SegmentsAt(f, i);
      ParseSegmentsAt(segs, i);
      ParseSegmentOfSegment(f[i]);
    }
  }

  /**
   * The query string determines the pairs it was built from: when no key
   * holds `&` or `=`, reading it back gives the array again, in order.
   */
  lemma QueryRoundTrip(f: Fields)
    requires forall k | 0 <= k < |f| :: '&' !in f[k].key && '=' !in f[k].key && IsByteString(f[k].value)
    ensures ParseQuery(BuildQuery(f)) == f
  {
    if f != [] {
      assert '&' !in f[0].key;
      var segs := Segments(f);
      var q := Join(segs, '&');
      BuildQueryIsJoin(f);
      JoinEnds(f);
      assert BuildQuery(f) == q && q != [];
      forall k | 0 <= k < |segs|
        ensures '&' !in segs[k]
      {
        SegmentsAt(f, k);
        EncodedHasNoDelimiters(f[k].value);
      }
      SplitJoin(segs, '&');
      ParseSegmentsOfSegments(f);
      assert ParseQuery(q) == ParseSegments(segs);
    }
  }

  lemma {:induction false} NoNewlineInAccumulated(f: Fields)
    requires forall k | 0 <= k < |f| :: '\n' !in f[k].key
    ensures '\n' !in Accumulated(f)
  {
    if f != [] {
      NoNewlineInAccumulated(f[..|f| - 1]);
      EncodedHasNoDelimiters(f[|f| - 1].value);
    }
  }

  /** No line break reaches the query string unless a key holds one. */
  lemma NoNewlineInQuery(f: Fields)
    requires forall k | 0 <= k < |f| :: '\n' !in f[k].key
    ensures '\n' !in BuildQuery(f)
  {
    NoNewlineInAccumulated(f);
    var a := Accumulated(f);
    var l := TrimLeft(a, {'&'});
    assert l == a[|a| - |l|..];
    assert TrimRight(l, {'&'}) == l[..|TrimRight(l, {'&'})|];
  }
}

/**
 * `ksort($params, SORT_LOCALE_STRING)` as the signer uses it: the pairs of a
 * PHP array reordered by ascending key. Collation is plain byte-wise
 * lexicographic order (the "C" locale).
 */
module KeySort {
  import opened PhpStrings
  import opened PhpArray

  /** Byte-wise lexicographic order: a proper prefix comes first. */
  predicate KeyLess(a: Bytes, b: Bytes)
    decreases |a|
  {
    if a == [] then b != []
    else if b == [] then false
    else if a[0] != b[0] then a[0] < b[0]
    else KeyLess(a[1..], b[1..])
  }

  lemma {:induction false} KeyLessIrreflexive(a: Bytes)
    ensures !KeyLess(a, a)
    decreases |a|
  {
    if a != [] {
      KeyLessIrreflexive(a[1..]);
    }
  }

  lemma {:induction false} KeyLessAsymmetric(a: Bytes, b: Bytes)
    requires KeyLess(a, b)
    ensures !KeyLess(b, a)
    decreases |a|
  {
    if a != [] && b != [] && a[0] == b[0] {
      KeyLessAsymmetric(a[1..], b[1..]);
    }
  }

  lemma {:induction false} KeyLessTransitive(a: Bytes, b: Bytes, c: Bytes)
    requires KeyLess(a, b) && KeyLess(b, c)
    ensures KeyLess(a, c)
    decreases |a|
  {
    if a != [] && a[0] == b[0] && b[0] == c[0] {
      KeyLessTransitive(a[1..], b[1..], c[1..]);
    }
  }

  /** Two different keys are ordered one way or the other. */
  lemma {:induction false} KeyLessTotal(a: Bytes, b: Bytes)
    requires a != b
    ensures KeyLess(a, b) || KeyLess(b, a)
    decreases |a|
  {
    if a != [] && b != [] && a[0] == b[0] {
      assert a == [a[0]] + a[1..] && b == [b[0]] + b[1..];
      KeyLessTotal(a[1..], b[1..]);
    }
  }

  /** Each key is below the next one; no key twice. */
  ghost predicate StrictlySorted(s: Fields) {
    |s| <= 1 || (KeyLess(s[0].key, s[1].key) && StrictlySorted(s[1..]))
  }

  /** Inserts one pair before the first key it is below. */
  function Insert(s: Fields, e: Entry): (r: Fields)
    ensures multiset(r) == multiset(s) + multiset{e}
    ensures r[0] == e || (s != [] && r[0] == s[0])
  {
    if s == [] then [e]
    else if KeyLess(e.key, s[0].key) then [e] + s
    else
      assert s == [s[0]] + s[1..];
      [s[0]] + Insert(s[1..], e)
  }

  /** Inserting a pair with a new key keeps a sorted sequence sorted. */
  lemma {:induction false} InsertSorted(s: Fields, e: Entry)
    requires StrictlySorted(s)
    requires forall x | x in s :: x.key != e.key
    ensures StrictlySorted(Insert(s, e))
  {
    if s != [] && !KeyLess(e.key, s[0].key) {
      var t := s[1..];
      assert forall x | x in t :: x in s;
      InsertSorted(t, e);
      KeyLessTotal(s[0].key, e.key);
      var r := Insert(s, e);
      assert r[1..] == Insert(t, e);
    }
  }

  /** The specification of `ksort`: the pairs by ascending key. */
  function SortByKey(f: Fields): (r: Fields)
    ensures multiset(r) == multiset(f)
  {
    if f == [] then []
    else
      assert f == [f[0]] + f[1..];
      Insert(SortByKey(f[1..]), f[0])
  }

  /** On a PHP array (keys unique) the sorted pairs are strictly ascending. */
  lemma {:induction false} SortByKeySorted(f: Fields)
    requires UniqueKeys(f)
    ensures StrictlySorted(SortByKey(f))
  {
    if f != [] {
      var t := f[1..];
      SortByKeySorted(t);
      forall x | x in SortByKey(t)
        ensures x.key != f[0].key
      {
        assert x in multiset(SortByKey(t));
        KeySetHas(t, x);
      }
      InsertSorted(SortByKey(t), f[0]);
    }
  }

  /** In a sorted sequence the first key is below every later one. */
  lemma {:induction false} HeadLeast(s: Fields, x: Entry)
    requires StrictlySorted(s) && s != [] && x in s[1..]
    ensures KeyLess(s[0].key, x.key)
  {
    if x != s[1] {
      assert x in s[1..][1..];
      HeadLeast(s[1..], x);
      KeyLessTransitive(s[0].key, s[1].key, x.key);
    }
  }

  /** Two sorted sequences holding the same pairs are the same sequence. */
  lemma {:induction false} SortedUnique(a: Fields, b: Fields)
    requires StrictlySorted(a) && StrictlySorted(b)
    requires forall x :: x in a <==> x in b
    ensures a == b
  {
    if a == [] {
      if b != [] {
        assert false;
      }
    } else {
      assert b != [] by {
        assert a[0] in b;
      }
      assert a[0] == b[0] by {
        if a[0] != b[0] {
          assert a == [a[0]] + a[1..] && b == [b[0]] + b[1..];
          assert a[0] in b && b[0] in a;
          assert a[0] in b[1..];
          HeadLeast(b, a[0]);
          assert b[0] in a[1..];
          HeadLeast(a, b[0]);
          KeyLessAsymmetric(a[0].key, b[0].key);
          assert false;
        }
      }
      forall x
        ensures x in a[1..] <==> x in b[1..]
      {
        if x in a[1..] {
          HeadLeast(a, x);
          KeyLessIrreflexive(x.key);
          assert x in b;
        }
        if x in b[1..] {
          HeadLeast(b, x);
          KeyLessIrreflexive(x.key);
          assert x in a;
        }
      }
      SortedUnique(a[1..], b[1..]);
      assert a == [a[0]] + a[1..] && b == [b[0]] + b[1..];
    }
  }

  /**
   * The key-sorted pairs of a PHP array depend only on which key => value
   * pairs it holds, not on the order they were inserted in.
   */
  lemma SortByKeyOrderIndependent(a: Fields, b: Fields)
    requires UniqueKeys(a) && UniqueKeys(b) && SamePairs(a, b)
    ensures SortByKey(a) == SortByKey(b)
  {
    SortByKeySorted(a);
    SortByKeySorted(b);
    forall x
      ensures x in SortByKey(a) <==> x in SortByKey(b)
    {
      assert x in SortByKey(a) <==> x in multiset(a);
      assert x in SortByKey(b) <==> x in multiset(b);
      MemberIffGet(a, x);
      MemberIffGet(b, x);
    }
    SortedUnique(SortByKey(a), SortByKey(b));
  }

  /** `ksort`, run on a copy of the array as PHP does for a by-value parameter. */
  method KSort(params: Fields) returns (sorted: Fields)
    ensures sorted == SortByKey(params)
    ensures multiset(sorted) == multiset(params)
    ensures UniqueKeys(params) ==> StrictlySorted(sorted)
  {
    sorted := [];
    var i := |params|;
    while i > 0
      invariant 0 <= i <= |params|
      invariant sorted == SortByKey(params[i..])
    {
      i := i - 1;
      assert params[i..][1..] == params[i + 1..];
      sorted := Insert(sorted, params[i]);
    }
    assert params[0..] == params;
    if UniqueKeys(params) {
      SortByKeySorted(params);
    }
  }
}

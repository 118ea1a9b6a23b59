/**
 * A PHP array with string keys: key => value pairs kept in insertion order,
 * no key twice. `$a[k] = v` is `Put`, `array_merge($a, $b)` is `Merge`.
 */
module PhpArray {
  import opened Wrappers
  import opened PhpStrings

  datatype Entry = Entry(key: Bytes, value: Bytes)

  /** The pairs of a PHP array, in iteration order. */
  type Fields = seq<Entry>

  /** `array_keys`. */
  function Keys(f: Fields): seq<Bytes> {
    if f == [] then [] else [f[0].key] + Keys(f[1..])
  }

  /** The keys of `f` as a set. */
  function KeySet(f: Fields): set<Bytes> {
    if f == [] then {} else {f[0].key} + KeySet(f[1..])
  }

  lemma {:induction false} KeySetMember(f: Fields, k: Bytes)
    ensures k in KeySet(f) <==> exists i | 0 <= i < |f| :: f[i].key == k
  {
    if f != [] {
      KeySetMember(f[1..], k);
      if exists i | 0 <= i < |f| :: f[i].key == k {
        var i :| 0 <= i < |f| && f[i].key == k;
        if i > 0 {
          assert f[1..][i - 1].key == k;
        }
      }
      if exists i | 0 <= i < |f[1..]| :: f[1..][i].key == k {
        var i :| 0 <= i < |f[1..]| && f[1..][i].key == k;
        assert f[i + 1].key == k;
      }
    }
  }

  /** What every PHP array satisfies: a key occurs once. */
  ghost predicate UniqueKeys(f: Fields) {
    f == [] || (f[0].key !in KeySet(f[1..]) && UniqueKeys(f[1..]))
  }

  /** `$a[k]` when `isset($a[k])`, `None` otherwise. */
  function Get(f: Fields, k: Bytes): (r: Option<Bytes>)
    ensures r.Some? <==> k in KeySet(f)
    ensures r.Some? ==> Entry(k, r.value) in f
  {
    if f == [] then None
    else if f[0].key == k then Some(f[0].value)
    else Get(f[1..], k)
  }

  /** Two arrays hold the same key => value pairs, whatever their order. */
  ghost predicate SamePairs(a: Fields, b: Fields) {
    forall k :: Get(a, k) == Get(b, k)
  }

  lemma KeySetHas(f: Fields, x: Entry)
    requires x in f
    ensures x.key in KeySet(f)
  {
    KeySetMember(f, x.key);
    var i :| 0 <= i < |f| && f[i] == x;
  }

  /** In an array without repeated keys, holding a pair is looking it up. */
  lemma {:induction false} MemberIffGet(f: Fields, e: Entry)
    requires UniqueKeys(f)
    ensures e in f <==> Get(f, e.key) == Some(e.value)
  {
    if f != [] {
      assert f == [f[0]] + f[1..];
      if f[0].key != e.key {
        MemberIffGet(f[1..], e);
      } else {
        forall x | x in f[1..]
          ensures x != e
        {
          KeySetHas(f[1..], x);
        }
      }
    }
  }

  lemma KeySetCons(e: Entry, f: Fields)
    ensures KeySet([e] + f) == {e.key} + KeySet(f)
  {
    assert ([e] + f)[1..] == f;
  }

  lemma UniqueCons(e: Entry, f: Fields)
    ensures UniqueKeys([e] + f) <==> UniqueKeys(f) && e.key !in KeySet(f)
  {
    assert ([e] + f)[1..] == f;
  }

  /**
   * `$a[k] = v`: a key already present keeps its position and takes the new
   * value; a new key is appended at the end.
   */
  function Put(f: Fields, k: Bytes, v: Bytes): (r: Fields)
    ensures Get(r, k) == Some(v)
  {
    if f == [] then [Entry(k, v)]
    else if f[0].key == k then [Entry(k, v)] + f[1..]
    else [f[0]] + Put(f[1..], k, v)
  }

  /** `$a[k] = v` leaves every other key's value alone. */
  lemma {:induction false} PutGetOther(f: Fields, k: Bytes, v: Bytes, j: Bytes)
    requires j != k
    ensures Get(Put(f, k, v), j) == Get(f, j)
  {
    if f != [] && f[0].key != k {
      PutGetOther(f[1..], k, v, j);
    }
  }

  lemma {:induction false} PutKeySet(f: Fields, k: Bytes, v: Bytes)
    ensures KeySet(Put(f, k, v)) == KeySet(f) + {k}
  {
    if f != [] {
      var rest := f[1..];
      assert f == [f[0]] + rest;
      KeySetCons(f[0], rest);
      if f[0].key == k {
        KeySetCons(Entry(k, v), rest);
      } else {
        PutKeySet(rest, k, v);
        KeySetCons(f[0], Put(rest, k, v));
      }
    }
  }

  lemma {:induction false} PutNewKey(f: Fields, k: Bytes, v: Bytes)
    requires k !in KeySet(f)
    ensures Put(f, k, v) == f + [Entry(k, v)]
  {
    if f != [] {
      assert f == [f[0]] + f[1..];
      KeySetCons(f[0], f[1..]);
      PutNewKey(f[1..], k, v);
    }
  }

  lemma {:induction false} PutOldKey(f: Fields, k: Bytes, v: Bytes)
    requires k in KeySet(f)
    ensures Keys(Put(f, k, v)) == Keys(f)
  {
    assert f == [f[0]] + f[1..];
    KeySetCons(f[0], f[1..]);
    if f[0].key != k {
      PutOldKey(f[1..], k, v);
      assert Put(f, k, v)[1..] == Put(f[1..], k, v);
    } else {
      assert Put(f, k, v)[1..] == f[1..];
    }
  }

  lemma {:induction false} PutUnique(f: Fields, k: Bytes, v: Bytes)
    requires UniqueKeys(f)
    ensures UniqueKeys(Put(f, k, v))
  {
    if f != [] {
      var rest := f[1..];
      assert f == [f[0]] + rest;
      UniqueCons(f[0], rest);
      if f[0].key == k {
        UniqueCons(Entry(k, v), rest);
      } else {
        PutUnique(rest, k, v);
        PutKeySet(rest, k, v);
        UniqueCons(f[0], Put(rest, k, v));
      }
    }
  }

  /** Where `Put` leaves the keys: appended when new, in place otherwise. */
  lemma PutShape(f: Fields, k: Bytes, v: Bytes)
    ensures KeySet(Put(f, k, v)) == KeySet(f) + {k}
    ensures k !in KeySet(f) ==> Put(f, k, v) == f + [Entry(k, v)]
    ensures k in KeySet(f) ==> Keys(Put(f, k, v)) == Keys(f)
    ensures UniqueKeys(f) ==> UniqueKeys(Put(f, k, v))
  {
    PutKeySet(f, k, v);
    if k !in KeySet(f) {
      PutNewKey(f, k, v);
    } else {
      PutOldKey(f, k, v);
    }
    if UniqueKeys(f) {
      PutUnique(f, k, v);
    }
  }

  /**
   * `array_merge($a, $b)` for string keys: the pairs of `b` are put into `a`
   * in order, so on a shared key `b` wins and `a`'s position is kept.
   */
  function Merge(a: Fields, b: Fields): Fields
    decreases |b|
  {
    if b == [] then a else Merge(Put(a, b[0].key, b[0].value), b[1..])
  }

  /** After `array_merge($a, $b)` a key has its value from `b` if `b` has it, else from `a`. */
  lemma {:induction false} MergeGet(a: Fields, b: Fields, k: Bytes)
    requires UniqueKeys(b)
    ensures Get(Merge(a, b), k) == if k in KeySet(b) then Get(b, k) else Get(a, k)
    decreases |b|
  {
    if b != [] {
      var a' := Put(a, b[0].key, b[0].value);
      UniqueCons(b[0], b[1..]);
      assert b == [b[0]] + b[1..];
      MergeGet(a', b[1..], k);
      if k != b[0].key {
        PutGetOther(a, b[0].key, b[0].value, k);
      }
    }
  }

  lemma {:induction false} MergeKeySet(a: Fields, b: Fields)
    requires UniqueKeys(b)
    ensures KeySet(Merge(a, b)) == KeySet(a) + KeySet(b)
    decreases |b|
  {
    if b != [] {
      UniqueCons(b[0], b[1..]);
      KeySetCons(b[0], b[1..]);
      assert b == [b[0]] + b[1..];
      PutKeySet(a, b[0].key, b[0].value);
      MergeKeySet(Put(a, b[0].key, b[0].value), b[1..]);
    }
  }

  lemma {:induction false} MergeUnique(a: Fields, b: Fields)
    requires UniqueKeys(a) && UniqueKeys(b)
    ensures UniqueKeys(Merge(a, b))
    decreases |b|
  {
    if b != [] {
      UniqueCons(b[0], b[1..]);
      assert b == [b[0]] + b[1..];
      PutUnique(a, b[0].key, b[0].value);
      MergeUnique(Put(a, b[0].key, b[0].value), b[1..]);
    }
  }

  lemma MergeDisjointStep(a: Fields, b: Fields)
    requires UniqueKeys(b) && KeySet(a) !! KeySet(b) && b != []
    ensures UniqueKeys(b[1..])
    ensures Put(a, b[0].key, b[0].value) == a + [b[0]]
    ensures KeySet(a + [b[0]]) !! KeySet(b[1..])
    ensures Merge(a, b) == Merge(a + [b[0]], b[1..])
  {
    UniqueCons(b[0], b[1..]);
    KeySetCons(b[0], b[1..]);
    assert b == [b[0]] + b[1..];
    PutNewKey(a, b[0].key, b[0].value);
    PutKeySet(a, b[0].key, b[0].value);
  }

  lemma AppendFirst(a: Fields, b: Fields)
    requires b != []
    ensures a + b == (a + [b[0]]) + b[1..]
  {
    assert b == [b[0]] + b[1..];
  }

  lemma {:induction false} MergeDisjoint(a: Fields, b: Fields)
    requires UniqueKeys(b) && KeySet(a) !! KeySet(b)
    ensures Merge(a, b) == a + b
    decreases |b|
  {
    if b != [] {
      var a', rest := a + [b[0]], b[1..];
      MergeDisjointStep(a, b);
      MergeDisjoint(a', rest);
      AppendFirst(a, b);
    }
  }

  /** The keys `array_merge` leaves: all of both, appended in order when disjoint. */
  lemma MergeShape(a: Fields, b: Fields)
    requires UniqueKeys(b)
    ensures KeySet(Merge(a, b)) == KeySet(a) + KeySet(b)
    ensures UniqueKeys(a) ==> UniqueKeys(Merge(a, b))
    ensures KeySet(a) !! KeySet(b) ==> Merge(a, b) == a + b
  {
    MergeKeySet(a, b);
    if UniqueKeys(a) {
      MergeUnique(a, b);
    }
    if KeySet(a) !! KeySet(b) {
      MergeDisjoint(a, b);
    }
  }

  lemma {:induction false} KeysAppend(a: Fields, b: Fields)
    ensures Keys(a + b) == Keys(a) + Keys(b)
  {
    if a == [] {
      assert a + b == b;
    } else {
      assert (a + b)[0] == a[0] && (a + b)[1..] == a[1..] + b;
      KeysAppend(a[1..], b);
    }
  }

  /** Appending a pair whose key is new: `$a[k] = v` puts it last. */
  lemma AppendNew(f: Fields, e: Entry)
    requires e.key !in KeySet(f)
    ensures Put(f, e.key, e.value) == f + [e]
    ensures Keys(f + [e]) == Keys(f) + [e.key]
    ensures KeySet(f + [e]) == KeySet(f) + {e.key}
    ensures UniqueKeys(f) ==> UniqueKeys(f + [e])
  {
    PutShape(f, e.key, e.value);
    KeysAppend(f, [e]);
    assert Keys([e]) == [e.key] by {
      assert [e][1..] == [];
    }
  }

  /** No string occurs twice. */
  ghost predicate Distinct(ks: seq<Bytes>) {
    forall i, j | 0 <= i < j < |ks| :: ks[i] != ks[j]
  }

  /** The array literal `array(keys[0] => values[0], keys[1] => values[1], ...)`. */
  function ArrayLiteral(keys: seq<Bytes>, values: seq<Bytes>): (r: Fields)
    requires |keys| == |values|
    ensures |r| == |keys|
  {
    if keys == [] then [] else [Entry(keys[0], values[0])] + ArrayLiteral(keys[1..], values[1..])
  }

  /** A literal lists its keys in the order written. */
  lemma {:induction false} ArrayLiteralKeys(keys: seq<Bytes>, values: seq<Bytes>)
    requires |keys| == |values|
    ensures Keys(ArrayLiteral(keys, values)) == keys
  {
    if keys != [] {
      assert ArrayLiteral(keys, values)[1..] == ArrayLiteral(keys[1..], values[1..]);
      ArrayLiteralKeys(keys[1..], values[1..]);
    }
  }

  /** A literal with no key written twice has no repeated key. */
  lemma {:induction false} ArrayLiteralUnique(keys: seq<Bytes>, values: seq<Bytes>)
    requires |keys| == |values| && Distinct(keys)
    ensures UniqueKeys(ArrayLiteral(keys, values))
  {
    if keys != [] {
      var f := ArrayLiteral(keys, values);
      assert f[1..] == ArrayLiteral(keys[1..], values[1..]);
      ArrayLiteralUnique(keys[1..], values[1..]);
      ArrayLiteralKeys(keys[1..], values[1..]);
      KeySetIsKeys(f[1..], keys[0]);
    }
  }

  /**
   * A literal lists its keys in the order written; when no key is written
   * twice it is a well-formed array whose key set is the written keys.
   */
  lemma ArrayLiteralShape(keys: seq<Bytes>, values: seq<Bytes>)
    requires |keys| == |values|
    ensures Keys(ArrayLiteral(keys, values)) == keys
    ensures forall k :: k in KeySet(ArrayLiteral(keys, values)) <==> k in keys
    ensures Distinct(keys) ==> UniqueKeys(ArrayLiteral(keys, values))
  {
    ArrayLiteralKeys(keys, values);
    forall k {
      KeySetIsKeys(ArrayLiteral(keys, values), k);
    }
    if Distinct(keys) {
      ArrayLiteralUnique(keys, values);
    }
  }

  lemma {:induction false} ArrayLiteralAt(keys: seq<Bytes>, values: seq<Bytes>, i: nat)
    requires |keys| == |values| && i < |keys|
    ensures ArrayLiteral(keys, values)[i] == Entry(keys[i], values[i])
  {
    if i > 0 {
      ArrayLiteralAt(keys[1..], values[1..], i - 1);
    }
  }

  /** Each key of a literal without repeated keys looks up the value written beside it. */
  lemma ArrayLiteralGet(keys: seq<Bytes>, values: seq<Bytes>, i: nat)
    requires |keys| == |values| && Distinct(keys) && i < |keys|
    ensures Get(ArrayLiteral(keys, values), keys[i]) == Some(values[i])
  {
    ArrayLiteralShape(keys, values);
    ArrayLiteralAt(keys, values, i);
    ValueAt(ArrayLiteral(keys, values), i);
  }

  /** Looking a key up in `a + b`: `a` is searched first. */
  lemma {:induction false} GetAppend(a: Fields, b: Fields, k: Bytes)
    ensures Get(a + b, k) == if k in KeySet(a) then Get(a, k) else Get(b, k)
  {
    if a == [] {
      assert a + b == b;
    } else {
      assert (a + b)[0] == a[0] && (a + b)[1..] == a[1..] + b;
      GetAppend(a[1..], b, k);
    }
  }

  lemma {:induction false} KeySetAppend(a: Fields, b: Fields)
    ensures KeySet(a + b) == KeySet(a) + KeySet(b)
  {
    if a == [] {
      assert a + b == b;
    } else {
      assert (a + b)[0] == a[0] && (a + b)[1..] == a[1..] + b;
      KeySetAppend(a[1..], b);
    }
  }

  /** In an array without repeated keys, the pair at each position is what its key looks up. */
  lemma ValueAt(f: Fields, i: nat)
    requires UniqueKeys(f) && i < |f|
    ensures Get(f, f[i].key) == Some(f[i].value)
  {
    MemberIffGet(f, f[i]);
  }

  lemma {:induction false} UniqueAppend(a: Fields, b: Fields)
    requires UniqueKeys(a) && UniqueKeys(b) && KeySet(a) !! KeySet(b)
    ensures UniqueKeys(a + b)
  {
    if a == [] {
      assert a + b == b;
    } else {
      assert (a + b)[0] == a[0] && (a + b)[1..] == a[1..] + b;
      KeySetAppend(a[1..], b);
      UniqueAppend(a[1..], b);
    }
  }

  /** The key set holds exactly the keys `array_keys` lists. */
  lemma {:induction false} KeySetIsKeys(f: Fields, k: Bytes)
    ensures k in KeySet(f) <==> k in Keys(f)
  {
    if f != [] {
      KeySetIsKeys(f[1..], k);
    }
  }
}

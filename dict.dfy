/**
 * Python's insertion-ordered dict, as the sequence of its (key, value) items:
 * assignment keeps an existing key where it is and appends a new one.
 */
module Dicts {
  import opened Wrappers

  predicate HasKey<K(==), V>(d: seq<(K, V)>, key: K) {
    exists i :: 0 <= i < |d| && d[i].0 == key
  }

  /** No key appears twice, as in every dict. */
  predicate UniqueKeys<K(==), V>(d: seq<(K, V)>) {
    forall i, j :: 0 <= i < j < |d| ==> d[i].0 != d[j].0
  }

  /**
   * `d[key] = val`: a key already present keeps its place and gets the new
   * value; a new key goes at the end.
   */
  function Put<K(==), V>(d: seq<(K, V)>, key: K, val: V): (r: seq<(K, V)>)
    requires UniqueKeys(d)
    ensures |r| == if HasKey(d, key) then |d| else |d| + 1
    ensures forall i :: 0 <= i < |d| ==> r[i].0 == d[i].0
    ensures forall i :: 0 <= i < |d| && d[i].0 != key ==> r[i] == d[i]
    ensures forall i :: 0 <= i < |r| && r[i].0 == key ==> r[i].1 == val
    ensures forall i :: |d| <= i < |r| ==> r[i].0 == key
    ensures HasKey(r, key)
    ensures UniqueKeys(r)
  {
    if d == [] then
      var r := [(key, val)];
      assert r[0].0 == key;
      r
    else if d[0].0 == key then
      var r := [(key, val)] + d[1..];
      assert r[0].0 == key;
      r
    else
      var rest := Put(d[1..], key, val);
      HasKeyTail(d, key);
      HasKeyTail([d[0]] + rest, key);
      assert ([d[0]] + rest)[1..] == rest;
      [d[0]] + rest
  }

  /** A key other than the first is present when it is present in the rest. */
  lemma HasKeyTail<K, V>(d: seq<(K, V)>, key: K)
    requires |d| > 0 && d[0].0 != key
    ensures HasKey(d, key) <==> HasKey(d[1..], key)
  {
    if HasKey(d, key) {
      var i :| 0 <= i < |d| && d[i].0 == key;
      assert d[1..][i - 1].0 == key;
    }
    if HasKey(d[1..], key) {
      var i :| 0 <= i < |d| - 1 && d[1..][i].0 == key;
      assert d[i + 1].0 == key;
    }
  }

  /** `d[key]`: the value stored under key, or None where Python raises KeyError. */
  function Get<K(==), V>(d: seq<(K, V)>, key: K): (r: Option<V>)
    ensures r.Some? <==> HasKey(d, key)
  {
    if d == [] then None
    else if d[0].0 == key then Some(d[0].1)
    else
      HasKeyTail(d, key);
      Get(d[1..], key)
  }

  /** In a dict, the item holding a key is the only one, so lookup finds its value. */
  lemma {:induction false} GetAt<K, V>(d: seq<(K, V)>, i: nat)
    requires UniqueKeys(d) && i < |d|
    ensures Get(d, d[i].0) == Some(d[i].1)
  {
    if i > 0 {
      assert d[0].0 != d[i].0;
      assert d[1..][i - 1] == d[i];
      GetAt(d[1..], i - 1);
    }
  }

  /**
   * The last assignment wins: after `d[key] = val` the key holds val, and every
   * other key holds what it held before.
   */
  lemma GetPut<K, V>(d: seq<(K, V)>, key: K, val: V, other: K)
    requires UniqueKeys(d)
    ensures Get(Put(d, key, val), key) == Some(val)
    ensures other != key ==> Get(Put(d, key, val), other) == Get(d, other)
  {
    var r := Put(d, key, val);
    var k :| 0 <= k < |r| && r[k].0 == key;
    GetAt(r, k);
    if other != key {
      GetPutOther(d, key, val, other);
    }
  }

  lemma GetPutOther<K, V>(d: seq<(K, V)>, key: K, val: V, other: K)
    requires UniqueKeys(d) && other != key
    ensures Get(Put(d, key, val), other) == Get(d, other)
  {
    var r := Put(d, key, val);
    if HasKey(d, other) {
      var i :| 0 <= i < |d| && d[i].0 == other;
      GetAt(d, i);
      assert r[i] == d[i];
      GetAt(r, i);
    } else {
      assert !HasKey(r, other) by {
        forall i | 0 <= i < |r|
          ensures r[i].0 != other
        {
          if i < |d| {
            assert r[i].0 == d[i].0;
          }
        }
      }
    }
  }

  /** Assigning a key that is not yet present appends it. */
  lemma PutFresh<K, V>(d: seq<(K, V)>, key: K, val: V)
    requires UniqueKeys(d) && !HasKey(d, key)
    ensures Put(d, key, val) == d + [(key, val)]
  {
    var r := Put(d, key, val);
    var k :| 0 <= k < |r| && r[k].0 == key;
    assert k == |d|;
  }
}

/**
  Association lists: the model of JavaScript objects and Maps and of Python dicts.
  Keys keep their insertion order and are distinct; writing an existing key
  replaces its value in place, as `obj[k] = v`, `map.set(k, v)` and `d[k] = v` do.
 */
module AssocList {
  import opened Wrappers

  function Keys<K, V>(m: seq<(K, V)>): (ks: seq<K>)
    ensures |ks| == |m|
    ensures forall i :: 0 <= i < |m| ==> ks[i] == m[i].0
  {
    seq(|m|, i requires 0 <= i < |m| => m[i].0)
  }

  predicate HasKey<K(==), V>(m: seq<(K, V)>, k: K) {
    exists i :: 0 <= i < |m| && m[i].0 == k
  }

  predicate Distinct<K(==), V>(m: seq<(K, V)>) {
    forall i, j :: 0 <= i < j < |m| ==> m[i].0 != m[j].0
  }

  /** The position of `k`, or -1. */
  function IndexOfKey<K(==), V>(m: seq<(K, V)>, k: K): (r: int)
    ensures -1 <= r < |m|
    ensures r == -1 <==> !HasKey(m, k)
    ensures r >= 0 ==> m[r].0 == k && forall j :: 0 <= j < r ==> m[j].0 != k
  {
    if m == [] then -1
    else if m[0].0 == k then 0
    else
      var r := IndexOfKey(m[1..], k);
      assert forall j :: 1 <= j < |m| ==> m[j] == m[1..][j - 1];
      if r == -1 then -1 else r + 1
  }

  /** `obj[k]`, `map.get(k)`, `d.get(k)`: the value stored under `k`, if any. */
  function Get<K(==), V>(m: seq<(K, V)>, k: K): (r: Option<V>)
    ensures r.Some? <==> HasKey(m, k)
    ensures r.Some? ==> (k, r.value) in m
  {
    var i := IndexOfKey(m, k);
    if i == -1 then None else Some(m[i].1)
  }

  /** In a list with distinct keys, every stored pair is what `Get` finds. */
  lemma {:induction false} GetDistinct<K, V>(m: seq<(K, V)>, i: int)
    requires Distinct(m) && 0 <= i < |m|
    ensures Get(m, m[i].0) == Some(m[i].1)
  {
    var j := IndexOfKey(m, m[i].0);
    assert j == i by {
      if j < i {
        assert m[j].0 == m[i].0;
      }
    }
  }

  /** `Get` finds the first pair with a key: a pair no earlier pair shares its key with is what it returns. */
  lemma {:induction false} GetFirst<K, V>(m: seq<(K, V)>, i: int)
    requires 0 <= i < |m| && forall j :: 0 <= j < i ==> m[j].0 != m[i].0
    ensures Get(m, m[i].0) == Some(m[i].1)
  {
    var j := IndexOfKey(m, m[i].0);
    assert j == i by {
      if j < i {
        assert m[j].0 == m[i].0;
      }
    }
  }

  /** `obj[k] = v`: replaces the value in place when `k` is present, appends otherwise. */
  function Put<K(==, !new), V>(m: seq<(K, V)>, k: K, v: V): (r: seq<(K, V)>) {
    var i := IndexOfKey(m, k);
    if i == -1 then m + [(k, v)] else m[i := (k, v)]
  }

  /** `Put` keeps the order of the keys, appends a new key, and changes exactly the value under `k`. */
  lemma {:induction false} PutSpec<K(!new), V>(m: seq<(K, V)>, k: K, v: V)
    ensures HasKey(m, k) ==> |Put(m, k, v)| == |m| && Keys(Put(m, k, v)) == Keys(m)
    ensures !HasKey(m, k) ==> Put(m, k, v) == m + [(k, v)]
    ensures Get(Put(m, k, v), k) == Some(v)
    ensures forall k' :: k' != k ==> Get(Put(m, k, v), k') == Get(m, k')
  {
    var i := IndexOfKey(m, k);
    var r := Put(m, k, v);
    if i == -1 {
      assert r[|m|].0 == k;
      forall k' | k' != k ensures Get(r, k') == Get(m, k') {
        var a, b := IndexOfKey(r, k'), IndexOfKey(m, k');
        if b >= 0 { assert r[b] == m[b]; }
        if a >= 0 && a < |m| { assert r[a] == m[a]; }
      }
    } else {
      assert Keys(r) == Keys(m);
      forall k' | k' != k ensures Get(r, k') == Get(m, k') {
        var a, b := IndexOfKey(r, k'), IndexOfKey(m, k');
        if b >= 0 { assert b != i; assert r[b] == m[b]; }
        if a >= 0 { assert a != i; assert r[a] == m[a]; }
      }
    }
  }

  lemma {:induction false} PutDistinct<K(!new), V>(m: seq<(K, V)>, k: K, v: V)
    requires Distinct(m)
    ensures Distinct(Put(m, k, v))
  {
    var r := Put(m, k, v);
    PutSpec(m, k, v);
    if !HasKey(m, k) {
      forall i, j | 0 <= i < j < |r| ensures r[i].0 != r[j].0 {
        if j == |m| {
          assert r[i] == m[i];
        }
      }
    } else {
      assert Keys(r) == Keys(m);
      forall i, j | 0 <= i < j < |r| ensures r[i].0 != r[j].0 {
        assert Keys(r)[i] == Keys(m)[i] && Keys(r)[j] == Keys(m)[j];
      }
    }
  }

  /** A key is present after `Put` exactly when it was present before or is the key written. */
  lemma {:induction false} PutHasKey<K(!new), V>(m: seq<(K, V)>, k: K, v: V, k': K)
    ensures HasKey(Put(m, k, v), k') <==> HasKey(m, k') || k' == k
  {
    PutSpec(m, k, v);
    assert Get(Put(m, k, v), k') == if k' == k then Some(v) else Get(m, k');
  }

  /** Reading back after `Put`, with a default. */
  lemma {:induction false} GetOrPut<K(!new), V>(m: seq<(K, V)>, k: K, v: V, k': K, default: V)
    ensures GetOr(Put(m, k, v), k', default) == if k' == k then v else GetOr(m, k', default)
  {
    PutSpec(m, k, v);
  }

  /** `d.get(k, default)`. */
  function GetOr<K(==), V>(m: seq<(K, V)>, k: K, default: V): (r: V)
    ensures HasKey(m, k) ==> (k, r) in m
    ensures !HasKey(m, k) ==> r == default
  {
    Get(m, k).GetOr(default)
  }

  /** The values in key order (`Object.values`). */
  function Values<K, V>(m: seq<(K, V)>): (vs: seq<V>)
    ensures |vs| == |m|
    ensures forall i :: 0 <= i < |m| ==> vs[i] == m[i].1
  {
    seq(|m|, i requires 0 <= i < |m| => m[i].1)
  }

  /** Writes every pair in order, as a loop of `obj[k] = v` does. */
  function PutAll<K(==, !new), V>(m: seq<(K, V)>, pairs: seq<(K, V)>): seq<(K, V)> {
    if pairs == [] then m
    else
      var n := |pairs| - 1;
      Put(PutAll(m, pairs[..n]), pairs[n].0, pairs[n].1)
  }

  /** The value of the last pair with key `k`, if any. */
  function LastValue<K(==), V>(pairs: seq<(K, V)>, k: K): (r: Option<V>)
    ensures r.None? <==> !HasKey(pairs, k)
  {
    if pairs == [] then None
    else
      var n := |pairs| - 1;
      if pairs[n].0 == k then Some(pairs[n].1)
      else
        var pre := pairs[..n];
        assert forall i :: 0 <= i < n ==> pairs[i] == pre[i];
        LastValue(pre, k)
  }

  /** After writing all pairs, a key holds the last value written to it, or its old value. */
  lemma {:induction false} GetPutAll<K(!new), V>(m: seq<(K, V)>, pairs: seq<(K, V)>, k: K)
    ensures Get(PutAll(m, pairs), k) == if HasKey(pairs, k) then LastValue(pairs, k) else Get(m, k)
  {
    if pairs != [] {
      var n := |pairs| - 1;
      var pre := pairs[..n];
      var before := PutAll(m, pre);
      var (k0, v0) := pairs[n];
      assert PutAll(m, pairs) == Put(before, k0, v0);
      GetPutAll(m, pre, k);
      PutSpec(before, k0, v0);
      if k0 == k {
        assert HasKey(pairs, k) && LastValue(pairs, k) == Some(v0);
      } else {
        assert LastValue(pairs, k) == LastValue(pre, k);
        assert forall i :: 0 <= i < n ==> pairs[i] == pre[i];
        assert HasKey(pairs, k) <==> HasKey(pre, k);
      }
    }
  }

  lemma {:induction false} PutAllDistinct<K(!new), V>(m: seq<(K, V)>, pairs: seq<(K, V)>)
    requires Distinct(m)
    ensures Distinct(PutAll(m, pairs))
  {
    if pairs != [] {
      var n := |pairs| - 1;
      PutAllDistinct(m, pairs[..n]);
      PutDistinct(PutAll(m, pairs[..n]), pairs[n].0, pairs[n].1);
    }
  }

  lemma {:induction false} PutAllSnoc<K(!new), V>(m: seq<(K, V)>, pairs: seq<(K, V)>, k: K, v: V)
    ensures PutAll(m, pairs + [(k, v)]) == Put(PutAll(m, pairs), k, v)
  {
    assert (pairs + [(k, v)])[..|pairs|] == pairs;
  }

  /** Writing pairs whose keys are distinct into an empty list keeps them as they are, in order. */
  lemma {:induction false} PutAllFresh<K(!new), V>(pairs: seq<(K, V)>)
    requires Distinct(pairs)
    ensures PutAll([], pairs) == pairs
  {
    if pairs != [] {
      var n := |pairs| - 1;
      var pre := pairs[..n];
      assert forall i :: 0 <= i < n ==> pre[i] == pairs[i];
      PutAllFresh(pre);
      assert !HasKey(pre, pairs[n].0);
      PutSpec(pre, pairs[n].0, pairs[n].1);
      assert pre + [pairs[n]] == pairs;
    }
  }

  /** Writing two lists of pairs is writing the first, then the second. */
  lemma {:induction false} PutAllAppend<K(!new), V>(m: seq<(K, V)>, a: seq<(K, V)>, b: seq<(K, V)>)
    ensures PutAll(m, a + b) == PutAll(PutAll(m, a), b)
    decreases |b|
  {
    if b == [] {
      assert a + b == a;
    } else {
      var n := |b| - 1;
      assert (a + b)[..|a + b| - 1] == a + b[..n];
      assert (a + b)[|a + b| - 1] == b[n];
      PutAllAppend(m, a, b[..n]);
    }
  }

  /** The value reported for a key is one written under it. */
  lemma {:induction false} LastValueIn<K, V>(pairs: seq<(K, V)>, k: K)
    requires LastValue(pairs, k).Some?
    ensures (k, LastValue(pairs, k).value) in pairs
  {
    var n := |pairs| - 1;
    if pairs[n].0 != k {
      var pre := pairs[..n];
      LastValueIn(pre, k);
      assert LastValue(pre, k) == LastValue(pairs, k);
      assert (k, LastValue(pairs, k).value) in pre;
    }
  }

  /** A value the dictionary built from `pairs` holds was written by one of the pairs. */
  lemma {:induction false} GetPutAllFrom<K(!new), V>(pairs: seq<(K, V)>, k: K) returns (i: nat)
    requires Get(PutAll([], pairs), k).Some?
    ensures i < |pairs| && pairs[i] == (k, Get(PutAll([], pairs), k).value)
  {
    GetPutAll([], pairs, k);
    LastValueIn(pairs, k);
    i :| 0 <= i < |pairs| && pairs[i] == (k, LastValue(pairs, k).value);
  }

  /** The last pair written under a key is the value `LastValue` reports. */
  lemma {:induction false} LastValueAt<K, V>(pairs: seq<(K, V)>, j: int)
    requires 0 <= j < |pairs|
    requires forall l :: j < l < |pairs| ==> pairs[l].0 != pairs[j].0
    ensures LastValue(pairs, pairs[j].0) == Some(pairs[j].1)
  {
    var n := |pairs| - 1;
    if j < n {
      var pre := pairs[..n];
      assert pre[j] == pairs[j];
      LastValueAt(pre, j);
    }
  }

  /**
    A `forEach` that writes one entry per element (`obj[key] = value`) and
    throws, here `None`, at the first element it has no entry for.
   */
  function WriteEach<T, K(==, !new), V>(xs: seq<T>, entry: T -> Option<(K, V)>): Option<seq<(K, V)>> {
    if xs == [] then Some([])
    else
      var n := |xs| - 1;
      var prev := WriteEach(xs[..n], entry);
      var e := entry(xs[n]);
      if prev.None? || e.None? then None else Some(Put(prev.value, e.value.0, e.value.1))
  }

  predicate AllEntries<T, K, V>(xs: seq<T>, entry: T -> Option<(K, V)>) {
    forall i :: 0 <= i < |xs| ==> entry(xs[i]).Some?
  }

  /**
    The loop completes exactly when every element has an entry; its result then
    holds each written key once, and exactly the keys written.
   */
  lemma {:induction false} WriteEachSpec<T, K(!new), V>(xs: seq<T>, entry: T -> Option<(K, V)>, k: K)
    ensures WriteEach(xs, entry).Some? <==> AllEntries(xs, entry)
    ensures AllEntries(xs, entry) ==>
      && Distinct(WriteEach(xs, entry).value)
      && (HasKey(WriteEach(xs, entry).value, k) <==> exists i :: 0 <= i < |xs| && entry(xs[i]).value.0 == k)
  {
    if xs != [] {
      var n := |xs| - 1;
      var pre := xs[..n];
      WriteEachSpec(pre, entry, k);
      assert forall i :: 0 <= i < n ==> pre[i] == xs[i];
      assert AllEntries(xs, entry) <==> AllEntries(pre, entry) && entry(xs[n]).Some?;
      if AllEntries(xs, entry) {
        var m := WriteEach(pre, entry).value;
        var (k0, v0) := entry(xs[n]).value;
        PutDistinct(m, k0, v0);
        PutHasKey(m, k0, v0, k);
        if k == k0 {
          assert entry(xs[n]).value.0 == k;
        }
      }
    }
  }

  /** An element no later element shares its key with leaves its value under that key. */
  lemma {:induction false} WriteEachLast<T, K(!new), V>(xs: seq<T>, entry: T -> Option<(K, V)>, j: int)
    requires AllEntries(xs, entry) && 0 <= j < |xs|
    requires forall l :: j < l < |xs| ==> entry(xs[l]).value.0 != entry(xs[j]).value.0
    ensures WriteEach(xs, entry).Some?
    ensures Get(WriteEach(xs, entry).value, entry(xs[j]).value.0) == Some(entry(xs[j]).value.1)
  {
    var n := |xs| - 1;
    var pre := xs[..n];
    assert AllEntries(pre, entry) by {
      forall i | 0 <= i < n ensures entry(pre[i]).Some? {
        assert pre[i] == xs[i];
      }
    }
    WriteEachSome(pre, entry);
    var m := WriteEach(pre, entry).value;
    var (k0, v0) := entry(xs[n]).value;
    assert WriteEach(xs, entry) == Some(Put(m, k0, v0));
    PutSpec(m, k0, v0);
    if j < n {
      assert pre[j] == xs[j];
      assert forall l :: j < l < |pre| ==> entry(pre[l]).value.0 != entry(pre[j]).value.0 by {
        forall l | j < l < |pre| ensures entry(pre[l]).value.0 != entry(pre[j]).value.0 {
          assert pre[l] == xs[l];
        }
      }
      WriteEachLast(pre, entry, j);
    }
  }

  lemma {:induction false} WriteEachSome<T, K(!new), V>(xs: seq<T>, entry: T -> Option<(K, V)>)
    requires AllEntries(xs, entry)
    ensures WriteEach(xs, entry).Some?
  {
    if xs != [] {
      var n := |xs| - 1;
      var pre := xs[..n];
      assert AllEntries(pre, entry) by {
        forall i | 0 <= i < n ensures entry(pre[i]).Some? {
          assert pre[i] == xs[i];
        }
      }
      WriteEachSome(pre, entry);
    }
  }
}

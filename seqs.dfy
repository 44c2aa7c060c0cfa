/**
 * Sequence helpers shared by the parser, the merger and the chunkers: first-occurrence
 * deduplication by a key, concatenation, and map-with-drop. Every function recurses on the
 * LAST element, the order in which the source's loops append.
 */
module Seqs {
  import opened Wrappers

  /** The keys of the elements of xs (the source's `seen_*` sets). */
  function KeySet<T, K(==)>(xs: seq<T>, key: T -> K): (ks: set<K>)
    ensures forall i :: 0 <= i < |xs| ==> key(xs[i]) in ks
  {
    if |xs| == 0 then {} else KeySet(xs[..|xs| - 1], key) + {key(xs[|xs| - 1])}
  }

  /** Every key in the set is the key of some element (witnessed by FirstIndex). */
  lemma KeySetMember<T, K>(xs: seq<T>, key: T -> K, k: K)
    requires k in KeySet(xs, key)
    ensures exists i :: 0 <= i < |xs| && key(xs[i]) == k
  {
    var i := FirstIndex(xs, key, k);
  }

  /** No two elements of xs share a key. */
  ghost predicate DistinctKeys<T, K>(xs: seq<T>, key: T -> K) {
    forall i, j :: 0 <= i < j < |xs| ==> key(xs[i]) != key(xs[j])
  }

  /** xs without every element whose key already occurred earlier: first occurrence wins. */
  function KeepFirst<T, K(==)>(xs: seq<T>, key: T -> K): (r: seq<T>)
    ensures |r| <= |xs|
    ensures KeySet(r, key) == KeySet(xs, key)
    ensures DistinctKeys(r, key)
  {
    if |xs| == 0 then []
    else
      var prefix := xs[..|xs| - 1];
      var x := xs[|xs| - 1];
      var p := KeepFirst(prefix, key);
      KeySetSnoc(prefix, x, key);
      KeySetSnoc(p, x, key);
      if key(x) in KeySet(prefix, key) then p else p + [x]
  }

  lemma KeySetSnoc<T, K>(xs: seq<T>, x: T, key: T -> K)
    ensures KeySet(xs + [x], key) == KeySet(xs, key) + {key(x)}
  {
    assert (xs + [x])[..|xs|] == xs;
  }

  lemma KeySetAppend<T, K>(xs: seq<T>, ys: seq<T>, key: T -> K)
    ensures KeySet(xs + ys, key) == KeySet(xs, key) + KeySet(ys, key)
  {
    var l, r := KeySet(xs + ys, key), KeySet(xs, key) + KeySet(ys, key);
    forall k | k in l ensures k in r {
      KeySetMember(xs + ys, key, k);
      var i :| 0 <= i < |xs + ys| && key((xs + ys)[i]) == k;
      if i >= |xs| { assert ys[i - |xs|] == (xs + ys)[i]; }
    }
    forall k | k in r ensures k in l {
      if k in KeySet(xs, key) {
        KeySetMember(xs, key, k);
        var i :| 0 <= i < |xs| && key(xs[i]) == k;
        assert (xs + ys)[i] == xs[i];
      } else {
        KeySetMember(ys, key, k);
        var i :| 0 <= i < |ys| && key(ys[i]) == k;
        assert (xs + ys)[|xs| + i] == ys[i];
      }
    }
  }

  /** The keys are distinct exactly when there are as many keys as elements, the test
      `len(names) != len(set(names))`. */
  lemma {:induction false} DistinctKeysBySize<T, K>(xs: seq<T>, key: T -> K)
    ensures |KeySet(xs, key)| <= |xs|
    ensures DistinctKeys(xs, key) <==> |KeySet(xs, key)| == |xs|
  {
    if |xs| > 0 {
      var p, x := xs[..|xs| - 1], xs[|xs| - 1];
      assert xs == p + [x];
      DistinctKeysBySize(p, key);
      KeySetSnoc(p, x, key);
      if key(x) in KeySet(p, key) {
        var i := FirstIndex(p, key, key(x));
        assert xs[i] == p[i];
        assert !DistinctKeys(xs, key);
      } else {
        assert DistinctKeys(xs, key) <==> DistinctKeys(p, key) by {
          if DistinctKeys(p, key) {
            forall i, j | 0 <= i < j < |xs| ensures key(xs[i]) != key(xs[j]) {
              if j < |p| { assert xs[i] == p[i] && xs[j] == p[j]; }
              else { assert xs[i] == p[i]; }
            }
          }
          if DistinctKeys(xs, key) {
            forall i, j | 0 <= i < j < |p| ensures key(p[i]) != key(p[j]) {
              assert xs[i] == p[i] && xs[j] == p[j];
            }
          }
        }
      }
    }
  }

  /** Index of the first element of xs whose key is k. */
  function FirstIndex<T, K(==)>(xs: seq<T>, key: T -> K, k: K): (i: nat)
    requires k in KeySet(xs, key)
    ensures i < |xs| && key(xs[i]) == k
    ensures forall j :: 0 <= j < i ==> key(xs[j]) != k
  {
    var prefix := xs[..|xs| - 1];
    if k in KeySet(prefix, key) then FirstIndex(prefix, key, k) else |xs| - 1
  }

  lemma FirstIndexSnocOld<T, K>(xs: seq<T>, x: T, key: T -> K, k: K)
    requires k in KeySet(xs, key)
    ensures k in KeySet(xs + [x], key) && FirstIndex(xs + [x], key, k) == FirstIndex(xs, key, k)
  {
    KeySetSnoc(xs, x, key);
    assert (xs + [x])[..|xs|] == xs;
  }

  lemma FirstIndexSnocNew<T, K>(xs: seq<T>, x: T, key: T -> K)
    requires key(x) !in KeySet(xs, key)
    ensures key(x) in KeySet(xs + [x], key) && FirstIndex(xs + [x], key, key(x)) == |xs|
  {
    KeySetSnoc(xs, x, key);
    assert (xs + [x])[..|xs|] == xs;
  }

  /** One step of KeepFirst: the last element is kept exactly when its key is new. */
  lemma KeepFirstSnoc<T, K>(xs: seq<T>, x: T, key: T -> K)
    ensures KeepFirst(xs + [x], key) ==
      if key(x) in KeySet(xs, key) then KeepFirst(xs, key) else KeepFirst(xs, key) + [x]
  {
    assert (xs + [x])[..|xs|] == xs;
  }

  /**
   * KeepFirst keeps, for every key, the element at that key's first index, and lists the kept
   * elements in the order of those first indices. With the ensures of KeepFirst (same keys,
   * distinct keys) this determines KeepFirst(xs) completely.
   */
  lemma {:induction false} KeepFirstIsFirstSeen<T, K>(xs: seq<T>, key: T -> K)
    ensures var r := KeepFirst(xs, key);
      forall m :: 0 <= m < |r| ==> r[m] == xs[FirstIndex(xs, key, key(r[m]))]
    ensures var r := KeepFirst(xs, key);
      forall m1, m2 :: 0 <= m1 < m2 < |r| ==>
        FirstIndex(xs, key, key(r[m1])) < FirstIndex(xs, key, key(r[m2]))
  {
    if |xs| > 0 {
      var prefix, x := xs[..|xs| - 1], xs[|xs| - 1];
      assert xs == prefix + [x];
      KeepFirstIsFirstSeen(prefix, key);
      KeepFirstSnoc(prefix, x, key);
      var p, r := KeepFirst(prefix, key), KeepFirst(xs, key);
      forall m | 0 <= m < |p|
        ensures FirstIndex(xs, key, key(p[m])) == FirstIndex(prefix, key, key(p[m])) < |prefix|
        ensures p[m] == xs[FirstIndex(xs, key, key(p[m]))]
      {
        assert key(p[m]) in KeySet(p, key);
        FirstIndexSnocOld(prefix, x, key, key(p[m]));
      }
      if key(x) !in KeySet(prefix, key) {
        assert r == p + [x];
        FirstIndexSnocNew(prefix, x, key);
        forall m | 0 <= m < |r| ensures r[m] == xs[FirstIndex(xs, key, key(r[m]))] {
          if m < |p| { assert r[m] == p[m]; } else { assert r[m] == x; }
        }
        forall m1, m2 | 0 <= m1 < m2 < |r|
          ensures FirstIndex(xs, key, key(r[m1])) < FirstIndex(xs, key, key(r[m2]))
        {
          assert r[m1] == p[m1];
          if m2 < |p| { assert r[m2] == p[m2]; } else { assert r[m2] == x; }
        }
      }
    }
  }

  /** Without repeated keys nothing is dropped. */
  lemma {:induction false} KeepFirstOfDistinct<T, K>(xs: seq<T>, key: T -> K)
    requires DistinctKeys(xs, key)
    ensures KeepFirst(xs, key) == xs
  {
    if |xs| > 0 {
      var prefix, x := xs[..|xs| - 1], xs[|xs| - 1];
      assert xs == prefix + [x];
      KeepFirstOfDistinct(prefix, key);
      KeepFirstSnoc(prefix, x, key);
      forall k | k in KeySet(prefix, key) ensures k != key(x) {
        var i := FirstIndex(prefix, key, k);
        assert prefix[i] == xs[i];
      }
    }
  }

  /** Appending elements whose keys were all seen already changes nothing. */
  lemma {:induction false} KeepFirstAbsorbs<T, K>(xs: seq<T>, ys: seq<T>, key: T -> K)
    requires KeySet(ys, key) <= KeySet(xs, key)
    ensures KeepFirst(xs + ys, key) == KeepFirst(xs, key)
  {
    if |ys| == 0 {
      assert xs + ys == xs;
    } else {
      var ys', y := ys[..|ys| - 1], ys[|ys| - 1];
      KeySetSnoc(ys', y, key);
      assert ys == ys' + [y];
      KeepFirstAbsorbs(xs, ys', key);
      AppendSnoc(xs, ys);
      KeySetAppend(xs, ys', key);
      KeepFirstSnoc(xs + ys', y, key);
    }
  }

  lemma AppendSnoc<T>(xs: seq<T>, ys: seq<T>)
    requires |ys| > 0
    ensures xs + ys == (xs + ys[..|ys| - 1]) + [ys[|ys| - 1]]
  {
    assert ys == ys[..|ys| - 1] + [ys[|ys| - 1]];
  }

  /** Deduplicating a prefix first does not change the result: merging is incremental. */
  lemma {:induction false} KeepFirstNested<T, K>(xs: seq<T>, ys: seq<T>, key: T -> K)
    ensures KeepFirst(KeepFirst(xs, key) + ys, key) == KeepFirst(xs + ys, key)
  {
    var p := KeepFirst(xs, key);
    if |ys| == 0 {
      assert p + ys == p;
      assert xs + ys == xs;
      KeepFirstOfDistinct(p, key);
    } else {
      var ys', y := ys[..|ys| - 1], ys[|ys| - 1];
      var a, b := p + ys', xs + ys';
      KeepFirstNested(xs, ys', key);
      AppendSnoc(p, ys);
      AppendSnoc(xs, ys);
      KeySetAppend(p, ys', key);
      KeySetAppend(xs, ys', key);
      assert KeySet(a, key) == KeySet(b, key);
      KeepFirstSnoc(a, y, key);
      KeepFirstSnoc(b, y, key);
    }
  }

  /** Concatenation of f(x) over xs, in order. */
  function FlatMap<A, B>(xs: seq<A>, f: A -> seq<B>): seq<B> {
    if |xs| == 0 then [] else FlatMap(xs[..|xs| - 1], f) + f(xs[|xs| - 1])
  }

  /** One more element of xs, as a loop over xs takes it. */
  lemma FlatMapPrefix<A, B>(xs: seq<A>, i: nat, f: A -> seq<B>)
    requires i < |xs|
    ensures FlatMap(xs[..i + 1], f) == FlatMap(xs[..i], f) + f(xs[i])
  {
    assert xs[..i + 1][..i] == xs[..i];
  }

  lemma {:induction false} FlatMapAppend<A, B>(xs: seq<A>, ys: seq<A>, f: A -> seq<B>)
    ensures FlatMap(xs + ys, f) == FlatMap(xs, f) + FlatMap(ys, f)
  {
    if |ys| == 0 {
      assert xs + ys == xs;
    } else {
      var ys' := ys[..|ys| - 1];
      FlatMapAppend(xs, ys', f);
      assert (xs + ys)[..|xs + ys| - 1] == xs + ys';
      assert (xs + ys)[|xs + ys| - 1] == ys[|ys| - 1];
    }
  }

  /** Sum of the lengths of f(x) over xs. */
  function SumLengths<A, B>(xs: seq<A>, f: A -> seq<B>): nat {
    if |xs| == 0 then 0 else SumLengths(xs[..|xs| - 1], f) + |f(xs[|xs| - 1])|
  }

  lemma {:induction false} FlatMapLength<A, B>(xs: seq<A>, f: A -> seq<B>)
    ensures |FlatMap(xs, f)| == SumLengths(xs, f)
  {
    if |xs| > 0 { FlatMapLength(xs[..|xs| - 1], f); }
  }

  /** Concatenation of a sequence of sequences. */
  function Flatten<T>(xss: seq<seq<T>>): seq<T> {
    if |xss| == 0 then [] else Flatten(xss[..|xss| - 1]) + xss[|xss| - 1]
  }

  lemma FlattenSnoc<T>(xss: seq<seq<T>>, xs: seq<T>)
    ensures Flatten(xss + [xs]) == Flatten(xss) + xs
  {
    assert (xss + [xs])[..|xss|] == xss;
  }

  lemma {:induction false} FlattenCons<T>(xs: seq<T>, xss: seq<seq<T>>)
    ensures Flatten([xs] + xss) == xs + Flatten(xss)
  {
    if |xss| == 0 {
      assert [xs] + xss == [xs];
      assert [xs][..0] == [];
    } else {
      var p, l := xss[..|xss| - 1], xss[|xss| - 1];
      FlattenCons(xs, p);
      assert [xs] + xss == ([xs] + p) + [l];
      FlattenSnoc([xs] + p, l);
      assert xss == p + [l];
      FlattenSnoc(p, l);
    }
  }

  /** f applied to every element, keeping the successful results in order. */
  function FilterMap<A, B>(xs: seq<A>, f: A -> Option<B>): (r: seq<B>)
    ensures |r| <= |xs|
  {
    if |xs| == 0 then []
    else
      FilterMap(xs[..|xs| - 1], f) + (match f(xs[|xs| - 1]) case Some(y) => [y] case None => [])
  }

  /** Each element is kept or dropped on its own: the result on a concatenation is the
      concatenation of the results. */
  /** One more element of xs, as a loop over xs takes it. */
  lemma FilterMapPrefix<A, B>(xs: seq<A>, i: nat, f: A -> Option<B>)
    requires i < |xs|
    ensures FilterMap(xs[..i + 1], f) ==
      FilterMap(xs[..i], f) + (if f(xs[i]).Some? then [f(xs[i]).value] else [])
  {
    assert xs[..i + 1][..i] == xs[..i];
  }

  lemma {:induction false} FilterMapAppend<A, B>(xs: seq<A>, ys: seq<A>, f: A -> Option<B>)
    ensures FilterMap(xs + ys, f) == FilterMap(xs, f) + FilterMap(ys, f)
  {
    if |ys| == 0 {
      assert xs + ys == xs;
    } else {
      var ys' := ys[..|ys| - 1];
      FilterMapAppend(xs, ys', f);
      assert (xs + ys)[..|xs + ys| - 1] == xs + ys';
      assert (xs + ys)[|xs + ys| - 1] == ys[|ys| - 1];
    }
  }

  /** y is in the result exactly when some element maps to Some(y). */
  lemma {:induction false} FilterMapMembers<A, B>(xs: seq<A>, f: A -> Option<B>, y: B)
    ensures y in FilterMap(xs, f) <==> exists i :: 0 <= i < |xs| && f(xs[i]) == Some(y)
  {
    if |xs| > 0 {
      var prefix := xs[..|xs| - 1];
      FilterMapMembers(prefix, f, y);
      if exists i :: 0 <= i < |xs| && f(xs[i]) == Some(y) {
        var i :| 0 <= i < |xs| && f(xs[i]) == Some(y);
        if i < |prefix| { assert f(prefix[i]) == Some(y); }
      }
    }
  }
}

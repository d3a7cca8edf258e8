/** Filtering and stable descending sorting by a real-valued key.

    The launcher ranks applications by `sort_by` on their similarity score
    (descending), and the bar orders workspaces by `sort_by_key` on their id.
    Both Rust sorts are stable; here stability is stated as "for every key
    value, the elements carrying that key keep their relative order", and
    `DescendingStableUnique` shows that this, together with the order on keys,
    determines the sorted sequence completely. */
module Ranking {

  /** The elements of `xs` whose key is exactly `v`, in their original order. */
  function WithKey<T(==)>(xs: seq<T>, key: T -> real, v: real): (r: seq<T>)
    ensures |r| <= |xs|
  {
    if |xs| == 0 then []
    else if key(xs[0]) == v then [xs[0]] + WithKey(xs[1..], key, v)
    else WithKey(xs[1..], key, v)
  }

  /** An element is kept by `WithKey` exactly when it occurs with that key. */
  lemma {:induction false} WithKeyMember<T>(xs: seq<T>, key: T -> real, v: real, x: T)
    ensures x in WithKey(xs, key, v) <==> x in xs && key(x) == v
    decreases |xs|
  {
    if |xs| != 0 {
      WithKeyMember(xs[1..], key, v, x);
      assert xs == [xs[0]] + xs[1..];
    }
  }

  /** Keys never increase from left to right. */
  predicate Descending<T>(xs: seq<T>, key: T -> real)
  {
    forall i, j :: 0 <= i < j < |xs| ==> key(xs[i]) >= key(xs[j])
  }

  /** The elements of `xs` whose key is not zero, in their original order
      (the `filter_map` that drops apps with similarity `0.0`). */
  function Nonzero<T(==)>(xs: seq<T>, key: T -> real): (r: seq<T>)
    ensures forall x :: x in r ==> x in xs && key(x) != 0.0
    ensures forall x :: x in xs && key(x) != 0.0 ==> x in r
    ensures forall v :: WithKey(r, key, v) == if v == 0.0 then [] else WithKey(xs, key, v)
  {
    if |xs| == 0 then []
    else
      var rest := Nonzero(xs[1..], key);
      var r := if key(xs[0]) != 0.0 then [xs[0]] + rest else rest;
      assert forall v :: WithKey(r, key, v) == if v == 0.0 then [] else WithKey(xs, key, v) by {
        forall v
          ensures WithKey(r, key, v) == if v == 0.0 then [] else WithKey(xs, key, v)
        {
          if key(xs[0]) != 0.0 {
            assert r[1..] == rest;
          }
        }
      }
      r
  }

  /** Inserts `x` in front of the first element whose key is not larger than
      its own, so that `x` stays ahead of the equal keys that followed it. */
  function Insert<T(==)>(x: T, xs: seq<T>, key: T -> real): (r: seq<T>)
    ensures multiset(r) == multiset(xs) + multiset{x}
  {
    if |xs| == 0 || key(x) >= key(xs[0]) then [x] + xs
    else
      assert xs == [xs[0]] + xs[1..];
      [xs[0]] + Insert(x, xs[1..], key)
  }

  /** Inserting `x` keeps, for every key value, the order `x` followed by `xs`. */
  lemma {:induction false} InsertWithKey<T>(x: T, xs: seq<T>, key: T -> real, v: real)
    ensures WithKey(Insert(x, xs, key), key, v) == WithKey([x] + xs, key, v)
    decreases |xs|
  {
    if |xs| == 0 || key(x) >= key(xs[0]) {
    } else {
      var y, tail := xs[0], xs[1..];
      var rest := Insert(x, tail, key);
      assert Insert(x, xs, key) == [y] + rest;
      InsertWithKey(x, tail, key, v);
      assert ([y] + rest)[1..] == rest;
      assert ([x] + xs)[1..] == xs;
      assert ([x] + tail)[1..] == tail;
      assert WithKey(rest, key, v) == WithKey([x] + tail, key, v);
      if key(x) == v {
        assert WithKey([y] + rest, key, v) == WithKey(rest, key, v);
        assert WithKey(rest, key, v) == [x] + WithKey(tail, key, v);
        assert WithKey(xs, key, v) == WithKey(tail, key, v);
      } else if key(y) == v {
        assert WithKey([y] + rest, key, v) == [y] + WithKey(rest, key, v);
        assert WithKey(rest, key, v) == WithKey(tail, key, v);
      } else {
        assert WithKey([y] + rest, key, v) == WithKey(rest, key, v);
        assert WithKey(rest, key, v) == WithKey(tail, key, v);
        assert WithKey(xs, key, v) == WithKey(tail, key, v);
      }
    }
  }

  /** Inserting into a descending sequence keeps it descending. */
  lemma {:induction false} InsertDescending<T>(x: T, xs: seq<T>, key: T -> real)
    requires Descending(xs, key)
    ensures Descending(Insert(x, xs, key), key)
    decreases |xs|
  {
    if |xs| == 0 || key(x) >= key(xs[0]) {
    } else {
      var rest := Insert(x, xs[1..], key);
      InsertDescending(x, xs[1..], key);
      var r := [xs[0]] + rest;
      forall i, j | 0 <= i < j < |r|
        ensures key(r[i]) >= key(r[j])
      {
        if i == 0 {
          var z := rest[j - 1];
          assert multiset(rest)[z] > 0;
          if z != x {
            assert multiset(xs[1..])[z] > 0;
            assert z in xs[1..];
            var k :| 0 <= k < |xs[1..]| && xs[1..][k] == z;
            assert xs[k + 1] == z;
          }
        }
      }
    }
  }

  /** One step of the sort: inserting the head into a sequence that already
      has the tail's per-key order gives the whole sequence's per-key order. */
  lemma InsertKeepsKeyOrder<T>(x: T, tail: seq<T>, rest: seq<T>, key: T -> real, v: real)
    requires WithKey(rest, key, v) == WithKey(tail, key, v)
    ensures WithKey(Insert(x, rest, key), key, v) == WithKey([x] + tail, key, v)
  {
    InsertWithKey(x, rest, key, v);
    assert ([x] + rest)[1..] == rest;
    assert ([x] + tail)[1..] == tail;
  }

  /** Sequences with the same multiset have the same members. */
  lemma SameMembers<T>(a: seq<T>, b: seq<T>)
    requires multiset(a) == multiset(b)
    ensures forall x :: x in a ==> x in b
    ensures forall x :: x in b ==> x in a
  {
    forall x | x in a ensures x in b {
      assert x in multiset(a);
    }
    forall x | x in b ensures x in a {
      assert x in multiset(b);
    }
  }

  /** Stable descending sort (insertion sort). */
  function SortDescending<T(==)>(xs: seq<T>, key: T -> real): (r: seq<T>)
    ensures multiset(r) == multiset(xs)
    ensures Descending(r, key)
    ensures forall v :: WithKey(r, key, v) == WithKey(xs, key, v)
  {
    if |xs| == 0 then []
    else
      var rest := SortDescending(xs[1..], key);
      var r := Insert(xs[0], rest, key);
      assert xs == [xs[0]] + xs[1..];
      InsertDescending(xs[0], rest, key);
      assert forall v :: WithKey(r, key, v) == WithKey(xs, key, v) by {
        forall v
          ensures WithKey(r, key, v) == WithKey(xs, key, v)
        {
          InsertKeepsKeyOrder(xs[0], xs[1..], rest, key, v);
        }
      }
      r
  }

  /** Filtering by key commutes with concatenation. */
  lemma {:induction false} WithKeyAppend<T>(a: seq<T>, b: seq<T>, key: T -> real, v: real)
    ensures WithKey(a + b, key, v) == WithKey(a, key, v) + WithKey(b, key, v)
    decreases |a|
  {
    if |a| == 0 {
      assert a + b == b;
    } else {
      assert (a + b)[1..] == a[1..] + b;
      WithKeyAppend(a[1..], b, key, v);
    }
  }

  /** The equal-key elements of a prefix are a prefix of the equal-key elements. */
  lemma WithKeyPrefix<T>(xs: seq<T>, k: nat, key: T -> real, v: real)
    requires k <= |xs|
    ensures WithKey(xs[..k], key, v) <= WithKey(xs, key, v)
  {
    assert xs == xs[..k] + xs[k..];
    WithKeyAppend(xs[..k], xs[k..], key, v);
  }

  /** A prefix of a descending sequence is descending. */
  lemma DescendingPrefix<T>(xs: seq<T>, k: nat, key: T -> real)
    requires k <= |xs|
    requires Descending(xs, key)
    ensures Descending(xs[..k], key)
  {
  }

  /** A non-empty sequence has a key value with a non-empty sub-sequence. */
  lemma NonemptyHasKey<T>(xs: seq<T>, key: T -> real)
    requires |xs| > 0
    ensures WithKey(xs, key, key(xs[0])) != []
  {
  }

  /** The reference characterisation of a stable descending sort: two
      descending sequences that agree, for every key value, on the sub-sequence
      of elements carrying that key are the same sequence. */
  lemma {:induction false} DescendingStableUnique<T>(a: seq<T>, b: seq<T>, key: T -> real)
    requires Descending(a, key) && Descending(b, key)
    requires forall v :: WithKey(a, key, v) == WithKey(b, key, v)
    ensures a == b
    decreases |a|
  {
    if |a| == 0 {
      if |b| != 0 {
        NonemptyHasKey(b, key);
        assert false;
      }
    } else if |b| == 0 {
      NonemptyHasKey(a, key);
      assert false;
    } else {
      var ka, kb := key(a[0]), key(b[0]);
      WithKeyMember(a, key, ka, a[0]);
      WithKeyMember(b, key, ka, a[0]);
      WithKeyMember(b, key, kb, b[0]);
      WithKeyMember(a, key, kb, b[0]);
      var i :| 0 <= i < |b| && b[i] == a[0];
      var j :| 0 <= j < |a| && a[j] == b[0];
      assert kb >= ka;
      assert ka >= kb;
      assert WithKey(a, key, ka)[0] == a[0];
      assert WithKey(b, key, ka)[0] == b[0];
      assert a[0] == b[0];
      forall v
        ensures WithKey(a[1..], key, v) == WithKey(b[1..], key, v)
      {
        var h := if ka == v then [a[0]] else [];
        assert WithKey(a, key, v) == h + WithKey(a[1..], key, v);
        assert WithKey(b, key, v) == h + WithKey(b[1..], key, v);
        assert WithKey(a[1..], key, v) == WithKey(a, key, v)[|h|..];
        assert WithKey(b[1..], key, v) == WithKey(b, key, v)[|h|..];
      }
      DescendingStableUnique(a[1..], b[1..], key);
      assert a == [a[0]] + a[1..];
      assert b == [b[0]] + b[1..];
    }
  }

  /** `SortDescending` is the one stable descending sort. */
  lemma SortDescendingIsStableSort<T>(xs: seq<T>, ys: seq<T>, key: T -> real)
    requires Descending(ys, key)
    requires forall v :: WithKey(ys, key, v) == WithKey(xs, key, v)
    ensures SortDescending(xs, key) == ys
  {
    DescendingStableUnique(SortDescending(xs, key), ys, key);
  }
}

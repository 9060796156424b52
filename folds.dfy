/**
  The `reduce` and `filter` shapes the hooks are written in: left-to-right
  sums, order-preserving filters, and the `acc[key] += value` grouping into a
  record whose keys come out in first-encounter order.
*/
module Folds {

  /** `s.reduce((sum, x) => sum + f(x), 0)`. */
  function SumOf<T>(s: seq<T>, f: T -> real): real
    decreases |s|
  {
    if s == [] then 0.0 else SumOf(s[..|s| - 1], f) + f(s[|s| - 1])
  }

  /** Summing a concatenation sums the parts. */
  lemma {:induction false} SumOfConcat<T>(a: seq<T>, b: seq<T>, f: T -> real)
    decreases |b|
    ensures SumOf(a + b, f) == SumOf(a, f) + SumOf(b, f)
  {
    if b != [] {
      var b' := b[..|b| - 1];
      assert (a + b)[..|a + b| - 1] == a + b';
      assert (a + b)[|a + b| - 1] == b[|b| - 1];
      SumOfConcat(a, b', f);
      assert SumOf(a + b, f) == SumOf(a + b', f) + f(b[|b| - 1]);
      assert SumOf(b, f) == SumOf(b', f) + f(b[|b| - 1]);
    } else {
      assert a + b == a;
    }
  }

  lemma SumOfAppend<T>(a: seq<T>, x: T, f: T -> real)
    ensures SumOf(a + [x], f) == SumOf(a, f) + f(x)
  {
    assert (a + [x])[..|a|] == a;
  }

  /** Removing the element at `i` takes its term out of the sum. */
  lemma SumOfRemove<T>(t: seq<T>, i: int, f: T -> real)
    requires 0 <= i < |t|
    ensures SumOf(t, f) == SumOf(t[..i] + t[i + 1..], f) + f(t[i])
  {
    var before, x, after := t[..i], t[i], t[i + 1..];
    assert t == before + [x] + after;
    SumOfConcat(before + [x], after, f);
    SumOfAppend(before, x, f);
    SumOfConcat(before, after, f);
  }

  /** A sum does not depend on the order of its terms. */
  lemma {:induction false} SumOfPermutation<T>(s: seq<T>, t: seq<T>, f: T -> real)
    requires multiset(s) == multiset(t)
    decreases |s|
    ensures SumOf(s, f) == SumOf(t, f)
  {
    if s != [] {
      var n := |s| - 1;
      var x := s[n];
      assert s == s[..n] + [x];
      assert x in multiset(t);
      var i :| 0 <= i < |t| && t[i] == x;
      assert t == t[..i] + [x] + t[i + 1..];
      var rest := t[..i] + t[i + 1..];
      assert multiset(s[..n]) == multiset(rest) by {
        assert multiset(s) == multiset(s[..n]) + multiset{x};
        assert multiset(t) == multiset(t[..i]) + multiset{x} + multiset(t[i + 1..]);
        assert multiset(rest) == multiset(t[..i]) + multiset(t[i + 1..]);
        assert multiset(s[..n]) == multiset(s) - multiset{x};
        assert multiset(rest) == multiset(t) - multiset{x};
      }
      SumOfPermutation(s[..n], rest, f);
      SumOfRemove(t, i, f);
    } else {
      assert |t| == |multiset(t)| == 0;
    }
  }

  /** A sum of non-negative terms is non-negative. */
  lemma {:induction false} SumOfNonNegative<T>(s: seq<T>, f: T -> real)
    requires forall i | 0 <= i < |s| :: f(s[i]) >= 0.0
    decreases |s|
    ensures SumOf(s, f) >= 0.0
  {
    if s != [] {
      SumOfNonNegative(s[..|s| - 1], f);
    }
  }

  /** A sum of non-negative terms is positive exactly when one of its terms is. */
  lemma {:induction false} SumOfPositive<T>(s: seq<T>, f: T -> real)
    requires forall i | 0 <= i < |s| :: f(s[i]) >= 0.0
    decreases |s|
    ensures SumOf(s, f) > 0.0 <==> exists i | 0 <= i < |s| :: f(s[i]) > 0.0
  {
    if s != [] {
      var init := s[..|s| - 1];
      assert forall i | 0 <= i < |init| :: init[i] == s[i];
      SumOfPositive(init, f);
      SumOfNonNegative(init, f);
      if exists i | 0 <= i < |init| :: f(init[i]) > 0.0 {
        var i :| 0 <= i < |init| && f(init[i]) > 0.0;
        assert f(s[i]) > 0.0;
      }
    }
  }

  /** `s.filter(p)`: the elements satisfying `p`, in their original order. */
  function Filter<T(!new)>(s: seq<T>, p: T -> bool): (r: seq<T>)
    decreases |s|
    ensures |r| <= |s|
    ensures forall i | 0 <= i < |r| :: p(r[i]) && r[i] in s
  {
    if s == [] then []
    else Filter(s[..|s| - 1], p) + (if p(s[|s| - 1]) then [s[|s| - 1]] else [])
  }

  /** Filtering distributes over concatenation, so the order of the kept elements is the order in `s`. */
  lemma {:induction false} FilterConcat<T(!new)>(a: seq<T>, b: seq<T>, p: T -> bool)
    decreases |b|
    ensures Filter(a + b, p) == Filter(a, p) + Filter(b, p)
  {
    if b != [] {
      var b' := b[..|b| - 1];
      assert (a + b)[..|a + b| - 1] == a + b';
      assert (a + b)[|a + b| - 1] == b[|b| - 1];
      FilterConcat(a, b', p);
      var tail := if p(b[|b| - 1]) then [b[|b| - 1]] else [];
      assert Filter(a + b, p) == Filter(a + b', p) + tail;
      assert Filter(b, p) == Filter(b', p) + tail;
    } else {
      assert a + b == a;
    }
  }

  /** Every element satisfying `p` survives the filter. */
  lemma {:induction false} FilterComplete<T(!new)>(s: seq<T>, p: T -> bool)
    decreases |s|
    ensures forall i | 0 <= i < |s| && p(s[i]) :: s[i] in Filter(s, p)
  {
    if s != [] {
      var init := s[..|s| - 1];
      FilterComplete(init, p);
      forall i | 0 <= i < |s| - 1 && p(s[i]) ensures s[i] in Filter(s, p) {
        assert s[i] == init[i];
      }
    }
  }

  /** A filter with a predicate that holds of every element keeps everything. */
  lemma {:induction false} FilterAll<T(!new)>(s: seq<T>, p: T -> bool)
    requires forall i | 0 <= i < |s| :: p(s[i])
    decreases |s|
    ensures Filter(s, p) == s
  {
    if s != [] {
      FilterAll(s[..|s| - 1], p);
    }
  }

  /** The test `x => key(x) === k`. */
  function KeyIs<T, K(==)>(key: T -> K, k: K): T -> bool {
    (x: T) => key(x) == k
  }

  /** The elements whose key is `k`, in order (`s.filter(x => key(x) === k)`). */
  function WithKey<T(!new), K(==)>(s: seq<T>, key: T -> K, k: K): (r: seq<T>)
    ensures |r| <= |s|
    ensures forall i | 0 <= i < |r| :: key(r[i]) == k && r[i] in s
  {
    Filter(s, KeyIs(key, k))
  }

  /** Every element with key `k` is kept by `WithKey`. */
  lemma WithKeyComplete<T(!new), K>(s: seq<T>, key: T -> K, k: K)
    ensures forall i | 0 <= i < |s| && key(s[i]) == k :: s[i] in WithKey(s, key, k)
  {
    FilterComplete(s, KeyIs(key, k));
  }

  /** `m[k] || 0`. */
  function Lookup<K>(m: map<K, real>, k: K): real {
    if k in m then m[k] else 0.0
  }

  /**
    `s.reduce((acc, x) => { if (!acc[key(x)]) acc[key(x)] = 0; acc[key(x)] += val(x); return acc; }, {})`.
  */
  function GroupSum<T, K(==)>(s: seq<T>, key: T -> K, val: T -> real): map<K, real>
    decreases |s|
  {
    if s == [] then map[]
    else
      var m := GroupSum(s[..|s| - 1], key, val);
      var k := key(s[|s| - 1]);
      m[k := Lookup(m, k) + val(s[|s| - 1])]
  }

  /** The grouping holds a key exactly when some element has that key. */
  lemma {:induction false} GroupSumHasKey<T, K>(s: seq<T>, key: T -> K, val: T -> real, k: K)
    decreases |s|
    ensures k in GroupSum(s, key, val) <==> exists i | 0 <= i < |s| :: key(s[i]) == k
  {
    if s != [] {
      var init := s[..|s| - 1];
      GroupSumHasKey(init, key, val, k);
      assert GroupSum(s, key, val).Keys == GroupSum(init, key, val).Keys + {key(s[|s| - 1])};
      if exists i | 0 <= i < |init| :: key(init[i]) == k {
        var i :| 0 <= i < |init| && key(init[i]) == k;
        assert s[i] == init[i];
      }
      if exists i | 0 <= i < |s| :: key(s[i]) == k {
        var i :| 0 <= i < |s| && key(s[i]) == k;
        if i < |init| {
          assert init[i] == s[i];
        }
      }
    }
  }

  /** The total recorded under a key is the sum over the elements with that key, in order. */
  lemma {:induction false} GroupSumIsSumPerKey<T(!new), K>(s: seq<T>, key: T -> K, val: T -> real, k: K)
    decreases |s|
    ensures Lookup(GroupSum(s, key, val), k) == SumOf(WithKey(s, key, k), val)
  {
    if s != [] {
      var init := s[..|s| - 1];
      var last := s[|s| - 1];
      GroupSumIsSumPerKey(init, key, val, k);
      var w := WithKey(init, key, k);
      if key(last) == k {
        assert WithKey(s, key, k) == w + [last];
        SumOfAppend(w, last, val);
      } else {
        assert WithKey(s, key, k) == w;
      }
    }
  }

  /** No element occurs twice. */
  predicate NoDuplicates<T(==)>(s: seq<T>) {
    forall i, j | 0 <= i < j < |s| :: s[i] != s[j]
  }

  /**
    The keys of the grouping record in the order `Object.entries` lists them:
    the order in which each key was first met.
  */
  function DistinctKeys<T, K(==,!new)>(s: seq<T>, key: T -> K): (ks: seq<K>)
    decreases |s|
    ensures NoDuplicates(ks)
    ensures forall k :: k in ks <==> exists i | 0 <= i < |s| :: key(s[i]) == k
  {
    if s == [] then []
    else
      var init := s[..|s| - 1];
      var ks := DistinctKeys(init, key);
      var k := key(s[|s| - 1]);
      assert forall i | 0 <= i < |init| :: init[i] == s[i];
      if k in ks then ks else ks + [k]
  }

  /** The sum of the recorded totals of `ks`, read from the grouping `m`. */
  function SumLookups<K>(ks: seq<K>, m: map<K, real>): real
    decreases |ks|
  {
    if ks == [] then 0.0 else SumLookups(ks[..|ks| - 1], m) + Lookup(m, ks[|ks| - 1])
  }

  /** Changing the total of one key changes the sum over distinct keys by the difference, if the key is listed. */
  lemma {:induction false} SumLookupsUpdate<K>(ks: seq<K>, m: map<K, real>, k: K, v: real)
    requires NoDuplicates(ks)
    decreases |ks|
    ensures SumLookups(ks, m[k := v]) == SumLookups(ks, m) + (if k in ks then v - Lookup(m, k) else 0.0)
  {
    if ks != [] {
      var init := ks[..|ks| - 1];
      assert NoDuplicates(init);
      SumLookupsUpdate(init, m, k, v);
      assert k in ks <==> k in init || k == ks[|ks| - 1];
      if k == ks[|ks| - 1] {
        assert k !in init;
      }
    }
  }

  /** The totals of a grouping, taken over its distinct keys, add up to the sum over all elements. */
  lemma {:induction false} GroupSumTotal<T, K(!new)>(s: seq<T>, key: T -> K, val: T -> real)
    decreases |s|
    ensures SumLookups(DistinctKeys(s, key), GroupSum(s, key, val)) == SumOf(s, val)
  {
    if s != [] {
      var init := s[..|s| - 1];
      var x := s[|s| - 1];
      var k := key(x);
      var ks := DistinctKeys(init, key);
      var m := GroupSum(init, key, val);
      GroupSumTotal(init, key, val);
      SumLookupsUpdate(ks, m, k, Lookup(m, k) + val(x));
      if k !in ks {
        GroupSumHasKey(init, key, val, k);
        assert k !in m;
        assert (ks + [k])[..|ks|] == ks;
      }
    }
  }

  /** A sequence with no element twice holds each element once. */
  lemma {:induction false} NoDuplicatesOnce<T>(s: seq<T>, x: T)
    requires NoDuplicates(s)
    decreases |s|
    ensures multiset(s)[x] <= 1
  {
    if s != [] {
      var init := s[..|s| - 1];
      assert s == init + [s[|s| - 1]];
      assert NoDuplicates(init);
      NoDuplicatesOnce(init, x);
      if s[|s| - 1] == x {
        assert x !in init;
      }
    }
  }

  /** Reordering keeps a sequence free of duplicates. */
  lemma NoDuplicatesPermutation<T>(s: seq<T>, t: seq<T>)
    requires multiset(s) == multiset(t) && NoDuplicates(s)
    ensures NoDuplicates(t)
  {
    forall i, j | 0 <= i < j < |t| ensures t[i] != t[j] {
      NoDuplicatesOnce(s, t[i]);
      assert t == t[..j] + [t[j]] + t[j + 1..];
      assert t[i] in t[..j];
    }
  }

  /** `s.slice(0, n)`. */
  function Take<T>(s: seq<T>, n: nat): (r: seq<T>)
    ensures |r| == if |s| < n then |s| else n
    ensures r == s[..|r|]
  {
    if |s| <= n then s else s[..n]
  }
}

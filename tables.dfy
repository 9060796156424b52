/**
  One keyed object store with an auto-increment primary key (Dexie's `++id`):
  rows by key, and the next key the store hands out. Keys start at 1, rows
  come back from `toArray()` in ascending key order, `update` and `delete`
  on an absent key change nothing.
*/
module Tables {
  import opened Wrappers
  import opened Folds

  datatype Table<R> = Table(rows: map<int, R>, next: int) {

    /** Every key is one the counter has already handed out. */
    ghost predicate Valid() {
      next >= 1 && forall k | k in rows :: 1 <= k < next
    }

    /** `get(k)`. */
    function Get(k: int): Option<R> {
      if k in rows then Some(rows[k]) else None
    }

    /** `count()`. */
    function Count(): nat {
      |rows|
    }

    /** `add(r)`: stores `r` under the next key and advances the counter. */
    function Add(r: R): Table<R> {
      Table(rows[next := r], next + 1)
    }

    /** `add(r)` with an explicit key: fails when the key is taken, and keeps the counter above it. */
    function AddWithKey(k: int, r: R): Result<Table<R>> {
      if k in rows then Err("ConstraintError")
      else Ok(Table(rows[k := r], if k >= next then k + 1 else next))
    }

    /** Writes `r` over an existing row; an absent key changes nothing. */
    function Replace(k: int, r: R): Table<R> {
      if k in rows then Table(rows[k := r], next) else this
    }

    /** `delete(k)`. */
    function Delete(k: int): Table<R> {
      Table(rows - {k}, next)
    }

    /** `toArray()` with the keys: every row, by ascending key. */
    function Entries(): seq<(int, R)> {
      EntriesBelow(rows, next)
    }

    /** `toArray()`. */
    function Values(): seq<R> {
      Seconds(Entries())
    }
  }

  /** The rows whose key is below `hi`, by ascending key. */
  function EntriesBelow<R>(rows: map<int, R>, hi: int): seq<(int, R)>
    decreases hi
  {
    if hi <= 1 then []
    else EntriesBelow(rows, hi - 1) + (if hi - 1 in rows then [(hi - 1, rows[hi - 1])] else [])
  }

  function Seconds<K, R>(es: seq<(K, R)>): (rs: seq<R>)
    ensures |rs| == |es|
    ensures forall i | 0 <= i < |es| :: rs[i] == es[i].1
  {
    if es == [] then [] else [es[0].1] + Seconds(es[1..])
  }

  lemma SecondsConcat<K, R>(a: seq<(K, R)>, b: seq<(K, R)>)
    ensures Seconds(a + b) == Seconds(a) + Seconds(b)
  {
  }

  /** Reordering a listing reorders its values the same way. */
  lemma {:induction false} SecondsPermutation<K, R>(a: seq<(K, R)>, b: seq<(K, R)>)
    requires multiset(a) == multiset(b)
    decreases |a|
    ensures multiset(Seconds(a)) == multiset(Seconds(b))
  {
    if a != [] {
      var n := |a| - 1;
      var x := a[n];
      assert a == a[..n] + [x];
      assert x in multiset(b);
      var i :| 0 <= i < |b| && b[i] == x;
      assert b == b[..i] + [x] + b[i + 1..];
      var rest := b[..i] + b[i + 1..];
      assert multiset(a[..n]) == multiset(rest) by {
        assert multiset(a[..n]) == multiset(a) - multiset{x};
        assert multiset(rest) == multiset(b) - multiset{x};
      }
      SecondsPermutation(a[..n], rest);
      SecondsConcat(a[..n], [x]);
      SecondsConcat(b[..i], [x]);
      SecondsConcat(b[..i] + [x], b[i + 1..]);
      SecondsConcat(b[..i], b[i + 1..]);
    } else {
      assert |b| == |multiset(b)| == 0;
    }
  }

  /** The keys of the listing go strictly up, all below `hi`, and the listing holds exactly the rows below `hi`. */
  lemma {:induction false} EntriesBelowShape<R>(rows: map<int, R>, hi: int)
    decreases hi
    ensures forall i | 0 <= i < |EntriesBelow(rows, hi)| :: 1 <= EntriesBelow(rows, hi)[i].0 < hi
    ensures forall i, j | 0 <= i < j < |EntriesBelow(rows, hi)| :: EntriesBelow(rows, hi)[i].0 < EntriesBelow(rows, hi)[j].0
    ensures forall k, r :: (k, r) in EntriesBelow(rows, hi) <==> 1 <= k < hi && k in rows && rows[k] == r
  {
    if hi > 1 {
      EntriesBelowShape(rows, hi - 1);
    }
  }

  /** Rows above `hi` do not show in the listing below `hi`. */
  lemma {:induction false} EntriesBelowAgree<R>(a: map<int, R>, b: map<int, R>, hi: int)
    requires forall k | k < hi :: (k in a <==> k in b) && (k in a ==> a[k] == b[k])
    decreases hi
    ensures EntriesBelow(a, hi) == EntriesBelow(b, hi)
  {
    if hi > 1 {
      EntriesBelowAgree(a, b, hi - 1);
    }
  }

  /** `toArray()` holds every stored row, and nothing else. */
  lemma ValuesHoldRows<R>(t: Table<R>)
    requires t.Valid()
    ensures forall k | k in t.rows :: t.rows[k] in t.Values()
    ensures forall r | r in t.Values() :: exists k | k in t.rows :: t.rows[k] == r
  {
    EntriesBelowShape(t.rows, t.next);
    var es := t.Entries();
    forall k | k in t.rows ensures t.rows[k] in t.Values() {
      assert (k, t.rows[k]) in es;
      var i :| 0 <= i < |es| && es[i] == (k, t.rows[k]);
      assert t.Values()[i] == t.rows[k];
    }
    forall r | r in t.Values() ensures exists k | k in t.rows :: t.rows[k] == r {
      var i :| 0 <= i < |t.Values()| && t.Values()[i] == r;
      var (k, v) := es[i];
      assert (k, v) in es;
      assert t.rows[k] == r;
    }
  }

  /** `add` appends the new row to the end of `toArray()`. */
  lemma AddAppends<R>(t: Table<R>, r: R)
    requires t.Valid()
    ensures t.Add(r).Valid()
    ensures t.next !in t.rows
    ensures t.Add(r).Entries() == t.Entries() + [(t.next, r)]
    ensures t.Add(r).Values() == t.Values() + [r]
    ensures t.Add(r).Count() == t.Count() + 1
  {
    EntriesBelowAgree(t.rows[t.next := r], t.rows, t.next);
    SecondsConcat(t.Entries(), [(t.next, r)]);
    assert t.next !in t.rows;
  }

  /** The sum of `f` over the rows below `hi`, taken key by key. */
  function SumBelow<R>(rows: map<int, R>, hi: int, f: R -> real): real
    decreases hi
  {
    if hi <= 1 then 0.0
    else SumBelow(rows, hi - 1, f) + (if hi - 1 in rows then f(rows[hi - 1]) else 0.0)
  }

  /** A sum over `toArray()` is the key-by-key sum. */
  lemma {:induction false} SumOfEntries<R>(rows: map<int, R>, hi: int, f: R -> real)
    decreases hi
    ensures SumOf(Seconds(EntriesBelow(rows, hi)), f) == SumBelow(rows, hi, f)
  {
    if hi > 1 {
      SumOfEntries(rows, hi - 1, f);
      var tail := if hi - 1 in rows then [(hi - 1, rows[hi - 1])] else [];
      SecondsConcat(EntriesBelow(rows, hi - 1), tail);
      SumOfConcat(Seconds(EntriesBelow(rows, hi - 1)), Seconds(tail), f);
    }
  }

  /** Deleting a row takes its value out of the sum. */
  lemma {:induction false} SumBelowDelete<R>(rows: map<int, R>, hi: int, k: int, f: R -> real)
    requires k in rows && 1 <= k < hi
    decreases hi
    ensures SumBelow(rows - {k}, hi, f) == SumBelow(rows, hi, f) - f(rows[k])
  {
    if k < hi - 1 {
      SumBelowDelete(rows, hi - 1, k, f);
    } else {
      SumBelowAgree(rows - {k}, rows, hi - 1, f);
    }
  }

  /** Writing over a row moves the sum by the difference of the two values. */
  lemma {:induction false} SumBelowReplace<R>(rows: map<int, R>, hi: int, k: int, r: R, f: R -> real)
    requires k in rows && 1 <= k < hi
    decreases hi
    ensures SumBelow(rows[k := r], hi, f) == SumBelow(rows, hi, f) - f(rows[k]) + f(r)
  {
    if k < hi - 1 {
      SumBelowReplace(rows, hi - 1, k, r, f);
    } else {
      SumBelowAgree(rows[k := r], rows, hi - 1, f);
    }
  }

  lemma {:induction false} SumBelowAgree<R>(a: map<int, R>, b: map<int, R>, hi: int, f: R -> real)
    requires forall k | k < hi :: (k in a <==> k in b) && (k in a ==> a[k] == b[k])
    decreases hi
    ensures SumBelow(a, hi, f) == SumBelow(b, hi, f)
  {
    if hi > 1 {
      SumBelowAgree(a, b, hi - 1, f);
    }
  }

  /** `delete(k)` of a present row: the table loses that row only, and every sum over it loses its value. */
  lemma DeleteRemoves<R>(t: Table<R>, k: int, f: R -> real)
    requires t.Valid() && k in t.rows
    ensures t.Delete(k).Valid()
    ensures t.Delete(k).Count() == t.Count() - 1
    ensures SumOf(t.Delete(k).Values(), f) == SumOf(t.Values(), f) - f(t.rows[k])
  {
    SumOfEntries(t.rows, t.next, f);
    SumOfEntries(t.rows - {k}, t.next, f);
    SumBelowDelete(t.rows, t.next, k, f);
  }

  /** `delete(k)` of an absent key is a no-op. */
  lemma DeleteAbsent<R>(t: Table<R>, k: int)
    requires k !in t.rows
    ensures t.Delete(k) == t
  {
    assert t.rows - {k} == t.rows;
  }

  /** Writing over a present row keeps the keys and moves every sum by the difference. */
  lemma ReplaceChanges<R>(t: Table<R>, k: int, r: R, f: R -> real)
    requires t.Valid() && k in t.rows
    ensures t.Replace(k, r).Valid()
    ensures t.Replace(k, r).rows.Keys == t.rows.Keys
    ensures SumOf(t.Replace(k, r).Values(), f) == SumOf(t.Values(), f) - f(t.rows[k]) + f(r)
  {
    SumOfEntries(t.rows, t.next, f);
    SumOfEntries(t.rows[k := r], t.next, f);
    SumBelowReplace(t.rows, t.next, k, r, f);
  }
}

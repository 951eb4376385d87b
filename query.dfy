/** The handful of query shapes the application sends to its database,
    stated over an in-memory table (a sequence of rows).

    `.single()` and `.maybeSingle()` hand back a row only when exactly one
    row matches; with none or with several the row is absent (`.single()`
    also reports an error, `.maybeSingle()` only in the several case).
    `Single` captures both: the application reads only the row. */
module Query {
  import opened Text

  /** `.select().eq(...)`: the matching rows, in table order. */
  function Filter<T(!new)>(rows: seq<T>, p: T -> bool): (r: seq<T>)
    ensures |r| <= |rows|
    ensures forall x :: x in r <==> x in rows && p(x)
  {
    if rows == [] then []
    else (if p(rows[0]) then [rows[0]] else []) + Filter(rows[1..], p)
  }

  /** Some row satisfies `p` (`.limit(1)` returned a row). */
  predicate Any<T>(rows: seq<T>, p: T -> bool)
  {
    exists i :: 0 <= i < |rows| && p(rows[i])
  }

  lemma FilterNonEmpty<T(!new)>(rows: seq<T>, p: T -> bool)
    ensures |Filter(rows, p)| > 0 <==> Any(rows, p)
  {
    var f := Filter(rows, p);
    if |f| > 0 {
      assert f[0] in f;
    }
    if Any(rows, p) {
      var i :| 0 <= i < |rows| && p(rows[i]);
      assert rows[i] in f;
    }
  }

  /** `.single()` / `.maybeSingle()`: the row, when exactly one matches. */
  function Single<T(!new)>(rows: seq<T>, p: T -> bool): (r: Option<T>)
    ensures r.Some? ==> r.value in rows && p(r.value)
    ensures r.Some? ==> Any(rows, p)
    ensures !Any(rows, p) ==> r.None?
  {
    var m := Filter(rows, p);
    FilterNonEmpty(rows, p);
    if |m| == 1 then
      assert m[0] in m;
      Some(m[0])
    else None
  }

  lemma {:induction false} FilterAppend<T(!new)>(a: seq<T>, b: seq<T>, p: T -> bool)
    ensures Filter(a + b, p) == Filter(a, p) + Filter(b, p)
  {
    if a == [] {
      assert a + b == b;
    } else {
      assert (a + b)[1..] == a[1..] + b;
      FilterAppend(a[1..], b, p);
    }
  }

  /** When `rows[i]` is the only row satisfying `p`, the exactly-one read returns it. */
  lemma {:induction false} SingleOfOnlyMatch<T(!new)>(rows: seq<T>, p: T -> bool, i: int)
    requires 0 <= i < |rows| && p(rows[i])
    requires forall j :: 0 <= j < |rows| && j != i ==> !p(rows[j])
    ensures Single(rows, p) == Some(rows[i])
  {
    var before, after := rows[..i], rows[i + 1..];
    assert rows == before + [rows[i]] + after;
    FilterAppend(before + [rows[i]], after, p);
    FilterAppend(before, [rows[i]], p);
    assert !Any(before, p) by {
      forall j | 0 <= j < |before| ensures !p(before[j]) { assert before[j] == rows[j]; }
    }
    assert !Any(after, p) by {
      forall j | 0 <= j < |after| ensures !p(after[j]) { assert after[j] == rows[i + 1 + j]; }
    }
    NoneMatch(before, p);
    NoneMatch(after, p);
    assert Filter([rows[i]], p) == [rows[i]] + Filter([], p);
  }

  lemma NoneMatch<T(!new)>(rows: seq<T>, p: T -> bool)
    requires !Any(rows, p)
    ensures Filter(rows, p) == []
  {
    FilterNonEmpty(rows, p);
  }

  /** Some row of the filtered table satisfies `p` exactly when some row of the whole table
      satisfies both the filter and `p`. */
  lemma AnyOfFilter<T(!new)>(rows: seq<T>, q: T -> bool, p: T -> bool)
    ensures Any(Filter(rows, q), p) <==> Any(rows, (x: T) => q(x) && p(x))
  {
    var f := Filter(rows, q);
    if Any(f, p) {
      var i :| 0 <= i < |f| && p(f[i]);
      assert f[i] in f;
      var j :| 0 <= j < |rows| && rows[j] == f[i];
    }
    if Any(rows, (x: T) => q(x) && p(x)) {
      var j :| 0 <= j < |rows| && q(rows[j]) && p(rows[j]);
      assert rows[j] in f;
      var i :| 0 <= i < |f| && f[i] == rows[j];
    }
  }

  /** Two different rows satisfying `p` leave the exactly-one read empty. */
  lemma TwoMatchesNoSingle<T(!new)>(rows: seq<T>, p: T -> bool, i: int, j: int)
    requires 0 <= i < j < |rows| && p(rows[i]) && p(rows[j])
    ensures Single(rows, p).None?
  {
    assert rows == rows[..j] + rows[j..];
    FilterAppend(rows[..j], rows[j..], p);
    assert rows[..j][i] == rows[i] && rows[j..][0] == rows[j];
    FilterNonEmpty(rows[..j], p);
    FilterNonEmpty(rows[j..], p);
  }

  /** No two rows share a key. */
  predicate DistinctKeys<T, K(==)>(rows: seq<T>, key: T -> K)
  {
    forall i, j :: 0 <= i < j < |rows| ==> key(rows[i]) != key(rows[j])
  }

  /** Filtering keeps keys distinct. */
  lemma {:induction false} FilterKeepsDistinct<T(!new), K>(rows: seq<T>, key: T -> K, p: T -> bool)
    requires DistinctKeys(rows, key)
    ensures DistinctKeys(Filter(rows, p), key)
  {
    if rows != [] {
      var tail := rows[1..];
      forall i, j | 0 <= i < j < |tail| ensures key(tail[i]) != key(tail[j]) {
        assert tail[i] == rows[i + 1] && tail[j] == rows[j + 1];
      }
      FilterKeepsDistinct(tail, key, p);
      var ft := Filter(tail, p);
      forall k | 0 <= k < |ft|
        ensures key(ft[k]) != key(rows[0])
      {
        assert ft[k] in ft;
        var j :| 0 <= j < |tail| && tail[j] == ft[k];
        assert tail[j] == rows[j + 1];
      }
      var f := Filter(rows, p);
      assert f == (if p(rows[0]) then [rows[0]] else []) + ft;
      forall i, j | 0 <= i < j < |f|
        ensures key(f[i]) != key(f[j])
      {
        if p(rows[0]) {
          if i == 0 {
            assert f[0] == rows[0] && f[j] == ft[j - 1];
          } else {
            assert f[i] == ft[i - 1] && f[j] == ft[j - 1];
          }
        } else {
          assert f[i] == ft[i] && f[j] == ft[j];
        }
      }
    }
  }

  /** Array `.find(p)`: the first index whose element satisfies `p`. */
  function FindIndex<T>(rows: seq<T>, p: T -> bool): (r: Option<nat>)
    ensures r.Some? ==> (r.value < |rows| && p(rows[r.value])
                         && forall j :: 0 <= j < r.value ==> !p(rows[j]))
    ensures r.None? <==> !Any(rows, p)
  {
    if rows == [] then None
    else if p(rows[0]) then Some(0)
    else
      match FindIndex(rows[1..], p)
      case None => None
      case Some(k) => Some(k + 1)
  }

  lemma FindIndexNone<T>(rows: seq<T>, p: T -> bool)
    requires FindIndex(rows, p).None?
    ensures !Any(rows, p)
  {
  }

  /** `.update(f).eq(...)`: every matching row is rewritten by `f`, the rest are kept. */
  function UpdateWhere<T>(rows: seq<T>, p: T -> bool, f: T -> T): (r: seq<T>)
    ensures |r| == |rows|
    ensures forall i :: 0 <= i < |rows| ==> r[i] == if p(rows[i]) then f(rows[i]) else rows[i]
  {
    if rows == [] then []
    else [if p(rows[0]) then f(rows[0]) else rows[0]] + UpdateWhere(rows[1..], p, f)
  }

  /** `.delete().eq(...)`: the rows that do not match, in table order. */
  function DeleteWhere<T(!new)>(rows: seq<T>, p: T -> bool): (r: seq<T>)
    ensures forall x :: x in r <==> x in rows && !p(x)
  {
    Filter(rows, Not(p))
  }

  function Not<T>(p: T -> bool): T -> bool
  {
    (x: T) => !p(x)
  }
}

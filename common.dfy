/** Small shared vocabulary: an optional value and order-preserving filtering of rows. */
module Common {

  datatype Option<+T> = None | Some(value: T)

  /** No element occurs twice. */
  predicate Distinct<T(==)>(s: seq<T>)
  {
    forall i, j :: 0 <= i < j < |s| ==> s[i] != s[j]
  }

  /** The rows of `s` that satisfy `keep`, in their original order (a SQL `DELETE ... WHERE
      !keep` leaves exactly these rows behind). */
  function Filter<T(!new)>(s: seq<T>, keep: T -> bool): (r: seq<T>)
    ensures |r| <= |s|
    ensures forall x :: x in r <==> x in s && keep(x)
    ensures forall i :: 0 <= i < |r| ==> keep(r[i])
  {
    if s == [] then []
    else (if keep(s[0]) then [s[0]] else []) + Filter(s[1..], keep)
  }

  lemma {:induction false} FilterConcat<T(!new)>(a: seq<T>, b: seq<T>, keep: T -> bool)
    ensures Filter(a + b, keep) == Filter(a, keep) + Filter(b, keep)
  {
    if a == [] {
      assert a + b == b;
    } else {
      assert (a + b)[1..] == a[1..] + b;
      FilterConcat(a[1..], b, keep);
    }
  }

  /** Filtering with a predicate that every row satisfies changes nothing. */
  lemma {:induction false} FilterAll<T(!new)>(s: seq<T>, keep: T -> bool)
    requires forall x :: x in s ==> keep(x)
    ensures Filter(s, keep) == s
  {
    if s != [] {
      FilterAll(s[1..], keep);
    }
  }

  /** Filtering with a predicate that no row satisfies leaves nothing. */
  lemma {:induction false} FilterNone<T(!new)>(s: seq<T>, keep: T -> bool)
    requires forall x :: x in s ==> !keep(x)
    ensures Filter(s, keep) == []
  {
    if s != [] {
      FilterNone(s[1..], keep);
    }
  }

  /** Filtering twice: an outer filter `p` over rows that the inner filter `q` keeps
      whenever `p` holds is the same as filtering with `p` alone. */
  lemma {:induction false} FilterAbsorb<T(!new)>(s: seq<T>, q: T -> bool, p: T -> bool)
    requires forall x :: x in s && p(x) ==> q(x)
    ensures Filter(Filter(s, q), p) == Filter(s, p)
  {
    if s != [] {
      var rest := Filter(s[1..], q);
      FilterAbsorb(s[1..], q, p);
      if q(s[0]) {
        assert Filter(s, q) == [s[0]] + rest;
        FilterConcat([s[0]], rest, p);
        assert [s[0]][1..] == [];
        assert Filter([s[0]], p) == (if p(s[0]) then [s[0]] else []);
      } else {
        assert Filter(s, q) == rest;
      }
    }
  }

  /** Appending rows that all pass the filter appends them to the filtered rows. */
  lemma FilterAppendKept<T(!new)>(s: seq<T>, extra: seq<T>, keep: T -> bool)
    requires forall x :: x in extra ==> keep(x)
    ensures Filter(s + extra, keep) == Filter(s, keep) + extra
  {
    FilterConcat(s, extra, keep);
    FilterAll(extra, keep);
  }

  /** Appending rows that all fail the filter is invisible through it. */
  lemma FilterAppendDropped<T(!new)>(s: seq<T>, extra: seq<T>, keep: T -> bool)
    requires forall x :: x in extra ==> !keep(x)
    ensures Filter(s + extra, keep) == Filter(s, keep)
  {
    FilterConcat(s, extra, keep);
    FilterNone(extra, keep);
    assert Filter(s, keep) + [] == Filter(s, keep);
  }

  /** `f` applied to every row (an SQL `UPDATE`). */
  function MapRows<T>(s: seq<T>, f: T -> T): (r: seq<T>)
    ensures |r| == |s| && forall i :: 0 <= i < |s| ==> r[i] == f(s[i])
  {
    seq(|s|, i requires 0 <= i < |s| => f(s[i]))
  }

  /** An update that neither moves rows in or out of the filter nor changes a row the
      filter keeps is invisible through it. */
  lemma {:induction false} FilterMapInvisible<T(!new)>(s: seq<T>, f: T -> T, keep: T -> bool)
    requires forall x :: x in s ==> keep(f(x)) == keep(x) && (keep(x) ==> f(x) == x)
    ensures Filter(MapRows(s, f), keep) == Filter(s, keep)
  {
    if s != [] {
      assert MapRows(s, f)[1..] == MapRows(s[1..], f);
      FilterMapInvisible(s[1..], f, keep);
    }
  }
}

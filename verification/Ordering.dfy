/**
 Lists: what a filter keeps, what it means that nothing occurs twice, and
 Python's stable sort by an integer key.  The sort inserts every element behind
 those whose key is not larger; it permutes the list, orders it, and leaves
 elements that were in order already in their sequence, which is what callers
 of `sorted` rely on when they sort what other loops have collected.
 */
module Ordering {

  function Filter<T>(keep: T -> bool, xs: seq<T>): (kept: seq<T>) {
    if xs == [] then []
    else
      var n := |xs| - 1;
      if keep(xs[n]) then Filter(keep, xs[..n]) + [xs[n]] else Filter(keep, xs[..n])
  }

  lemma {:induction false} FilterAppend<T>(keep: T -> bool, xs: seq<T>, x: T)
    ensures Filter(keep, xs + [x]) == if keep(x) then Filter(keep, xs) + [x] else Filter(keep, xs)
  {
    assert (xs + [x])[..|xs|] == xs;
  }

  lemma {:induction false} FilterConcat<T>(keep: T -> bool, xs: seq<T>, ys: seq<T>)
    ensures Filter(keep, xs + ys) == Filter(keep, xs) + Filter(keep, ys)
  {
    if ys == [] {
      assert xs + ys == xs;
    } else {
      var n := |ys| - 1;
      assert (xs + ys)[..|xs| + n] == xs + ys[..n];
      FilterConcat(keep, xs, ys[..n]);
    }
  }

  lemma {:induction false} FilterMembers<T>(keep: T -> bool, xs: seq<T>)
    ensures forall x :: x in Filter(keep, xs) <==> x in xs && keep(x)
  {
    if xs != [] {
      var n := |xs| - 1;
      FilterMembers(keep, xs[..n]);
      assert xs == xs[..n] + [xs[n]];
    }
  }

  lemma {:induction false} FilterAll<T>(keep: T -> bool, xs: seq<T>)
    ensures (forall x :: x in xs ==> keep(x)) ==> Filter(keep, xs) == xs
    ensures (forall x :: x in xs ==> !keep(x)) ==> Filter(keep, xs) == []
  {
    if xs != [] {
      var n := |xs| - 1;
      FilterAll(keep, xs[..n]);
      assert xs == xs[..n] + [xs[n]];
    }
  }

  ghost predicate Keyed<T>(keys: map<T, int>, xs: seq<T>) {
    forall x :: x in xs ==> x in keys
  }

  ghost predicate SortedByKey<T>(keys: map<T, int>, xs: seq<T>)
    requires Keyed(keys, xs)
  {
    forall i, j :: 0 <= i < j < |xs| ==> keys[xs[i]] <= keys[xs[j]]
  }

  /** Insert x behind every element whose key is not larger. */
  function Insert<T(==)>(keys: map<T, int>, xs: seq<T>, x: T): (ys: seq<T>)
    requires Keyed(keys, xs) && x in keys
    ensures multiset(ys) == multiset(xs) + multiset{x}
    ensures Keyed(keys, ys)
  {
    if xs == [] then [x]
    else
      var n := |xs| - 1;
      assert xs == xs[..n] + [xs[n]];
      if keys[xs[n]] <= keys[x] then xs + [x] else Insert(keys, xs[..n], x) + [xs[n]]
  }

  function StableSort<T(==)>(keys: map<T, int>, xs: seq<T>): (ys: seq<T>)
    requires Keyed(keys, xs)
    ensures multiset(ys) == multiset(xs)
    ensures Keyed(keys, ys)
  {
    if xs == [] then []
    else
      var n := |xs| - 1;
      assert xs == xs[..n] + [xs[n]];
      Insert(keys, StableSort(keys, xs[..n]), xs[n])
  }

  lemma {:induction false} SameMembers<T>(xs: seq<T>, ys: seq<T>)
    requires multiset(xs) == multiset(ys)
    ensures |xs| == |ys| && forall x :: x in xs <==> x in ys
  {
    assert forall x :: x in xs <==> x in multiset(xs);
    assert forall x :: x in ys <==> x in multiset(ys);
    assert |multiset(xs)| == |multiset(ys)|;
  }

  lemma {:induction false} SameMember<T>(xs: seq<T>, ys: seq<T>, i: nat)
    requires multiset(xs) == multiset(ys) && i < |ys|
    ensures ys[i] in xs
  {
    assert ys[i] in multiset(ys);
  }

  lemma {:induction false} SortedAppend<T>(keys: map<T, int>, xs: seq<T>, last: T)
    requires Keyed(keys, xs) && SortedByKey(keys, xs) && last in keys
    requires forall x :: x in xs ==> keys[x] <= keys[last]
    ensures Keyed(keys, xs + [last]) && SortedByKey(keys, xs + [last])
  {
    var ys := xs + [last];
    forall i, j | 0 <= i < j < |ys|
      ensures keys[ys[i]] <= keys[ys[j]]
    {
      assert xs[i] in xs && ys[i] == xs[i];
    }
  }

  lemma {:induction false} InsertMembers<T>(keys: map<T, int>, xs: seq<T>, x: T)
    requires Keyed(keys, xs) && x in keys
    ensures forall y :: y in Insert(keys, xs, x) <==> y in xs || y == x
  {
    var ys := Insert(keys, xs, x);
    assert forall y :: y in ys <==> y in multiset(ys);
    assert forall y :: y in xs <==> y in multiset(xs);
  }

  lemma {:induction false} InsertSorted<T>(keys: map<T, int>, xs: seq<T>, x: T)
    requires Keyed(keys, xs) && x in keys && SortedByKey(keys, xs)
    ensures SortedByKey(keys, Insert(keys, xs, x))
  {
    if xs != [] {
      var n := |xs| - 1;
      assert forall y :: y in xs ==> keys[y] <= keys[xs[n]];
      if keys[xs[n]] <= keys[x] {
        SortedAppend(keys, xs, x);
      } else {
        InsertSorted(keys, xs[..n], x);
        InsertMembers(keys, xs[..n], x);
        SortedAppend(keys, Insert(keys, xs[..n], x), xs[n]);
      }
    }
  }

  lemma {:induction false} StableSortSorted<T>(keys: map<T, int>, xs: seq<T>)
    requires Keyed(keys, xs)
    ensures SortedByKey(keys, StableSort(keys, xs))
  {
    if xs != [] {
      var n := |xs| - 1;
      StableSortSorted(keys, xs[..n]);
      InsertSorted(keys, StableSort(keys, xs[..n]), xs[n]);
    }
  }

  lemma {:induction false} InsertFiltered<T>(keys: map<T, int>, xs: seq<T>, x: T, keep: T -> bool)
    requires Keyed(keys, xs) && x in keys
    requires keep(x) ==> forall y :: y in xs && keep(y) ==> keys[y] <= keys[x]
    ensures Filter(keep, Insert(keys, xs, x)) == if keep(x) then Filter(keep, xs) + [x] else Filter(keep, xs)
  {
    if xs == [] {
      FilterAppend(keep, [], x);
      assert [] + [x] == [x];
    } else {
      var n := |xs| - 1;
      if keys[xs[n]] > keys[x] {
        InsertFiltered(keys, xs[..n], x, keep);
        var before := Filter(keep, xs[..n]);
        assert Filter(keep, Insert(keys, xs[..n], x)) == if keep(x) then before + [x] else before;
        FilterAppend(keep, Insert(keys, xs[..n], x), xs[n]);
      } else {
        FilterAppend(keep, xs, x);
      }
    }
  }

  /** Stability: elements whose keys are already in order keep their order. */
  lemma {:induction false} StableSortFiltered<T>(keys: map<T, int>, xs: seq<T>, keep: T -> bool)
    requires Keyed(keys, xs) && Keyed(keys, Filter(keep, xs)) && SortedByKey(keys, Filter(keep, xs))
    ensures Filter(keep, StableSort(keys, xs)) == Filter(keep, xs)
  {
    if xs != [] {
      var n := |xs| - 1;
      var sorted, before := StableSort(keys, xs[..n]), Filter(keep, xs[..n]);
      FilterMembers(keep, xs[..n]);
      assert forall i :: 0 <= i < |before| ==> before[i] == Filter(keep, xs)[i];
      StableSortFiltered(keys, xs[..n], keep);
      if keep(xs[n]) {
        forall y | y in sorted && keep(y)
          ensures keys[y] <= keys[xs[n]]
        {
          FilterMembers(keep, sorted);
          var i :| 0 <= i < |before| && before[i] == y;
          assert Filter(keep, xs)[|before|] == xs[n];
        }
      }
      InsertFiltered(keys, sorted, xs[n], keep);
    }
  }

  /** A list in order stays as it is. */
  lemma {:induction false} SortedStays<T>(keys: map<T, int>, xs: seq<T>)
    requires Keyed(keys, xs) && SortedByKey(keys, xs)
    ensures StableSort(keys, xs) == xs
  {
    var all := (x: T) => true;
    FilterAll(all, xs);
    FilterAll(all, StableSort(keys, xs));
    StableSortFiltered(keys, xs, all);
  }

  ghost predicate Distinct<T>(xs: seq<T>) {
    forall i, j :: 0 <= i < j < |xs| ==> xs[i] != xs[j]
  }

  lemma {:induction false} DistinctCounts<T>(xs: seq<T>)
    ensures Distinct(xs) <==> forall x :: multiset(xs)[x] <= 1
  {
    if xs != [] {
      var n := |xs| - 1;
      DistinctCounts(xs[..n]);
      assert xs == xs[..n] + [xs[n]];
      assert multiset(xs) == multiset(xs[..n]) + multiset{xs[n]};
      if Distinct(xs) {
        assert xs[n] !in multiset(xs[..n]);
      } else if Distinct(xs[..n]) {
        var i, j :| 0 <= i < j < |xs| && xs[i] == xs[j];
        assert xs[..n][i] in multiset(xs[..n]);
        assert multiset(xs)[xs[n]] == 2;
      } else {
        var x :| multiset(xs[..n])[x] > 1;
        assert multiset(xs)[x] > 1;
      }
    }
  }

  lemma {:induction false} DistinctPermutation<T>(xs: seq<T>, ys: seq<T>)
    requires multiset(xs) == multiset(ys) && Distinct(xs)
    ensures Distinct(ys)
  {
    DistinctCounts(xs);
    DistinctCounts(ys);
  }

  lemma {:induction false} DistinctConcat<T>(xs: seq<T>, ys: seq<T>)
    requires Distinct(xs) && Distinct(ys) && forall y :: y in ys ==> y !in xs
    ensures Distinct(xs + ys)
  {
    var zs := xs + ys;
    forall i, j | 0 <= i < j < |zs|
      ensures zs[i] != zs[j]
    {
      if i < |xs| <= j {
        assert zs[j] == ys[j - |xs|] && ys[j - |xs|] in ys;
      }
    }
  }
}

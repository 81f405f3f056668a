/**
 Python's `sorted(xs, key=key, reverse=True)`: descending by key, elements with equal keys keep
 the order they came in. Two callers rely on it: the order history, which cuts the sorted list
 at a date, and the search for the latest refund of a payment.
 */
module StableSort {

  function Filter<T(!new)>(xs: seq<T>, p: T -> bool): (r: seq<T>)
    ensures forall x :: x in r <==> x in xs && p(x)
  {
    if xs == [] then []
    else if p(xs[0]) then [xs[0]] + Filter(xs[1..], p)
    else Filter(xs[1..], p)
  }

  function TakeWhile<T(!new)>(xs: seq<T>, p: T -> bool): (r: seq<T>)
    ensures r <= xs
    ensures forall x :: x in r ==> p(x)
  {
    if xs == [] || !p(xs[0]) then [] else [xs[0]] + TakeWhile(xs[1..], p)
  }

  ghost predicate Descending<T>(xs: seq<T>, key: T -> int) {
    forall i, j :: 0 <= i < j < |xs| ==> key(xs[i]) >= key(xs[j])
  }

  /** Puts x in front of the first element whose key is not larger. */
  function Insert<T>(x: T, ys: seq<T>, key: T -> int): (r: seq<T>)
    ensures |r| == |ys| + 1
  {
    if ys == [] || key(ys[0]) <= key(x) then [x] + ys else [ys[0]] + Insert(x, ys[1..], key)
  }

  function SortDescending<T>(xs: seq<T>, key: T -> int): (r: seq<T>)
    ensures |r| == |xs|
  {
    if xs == [] then [] else Insert(xs[0], SortDescending(xs[1..], key), key)
  }

  lemma {:induction false} InsertPermutes<T>(x: T, ys: seq<T>, key: T -> int)
    ensures multiset(Insert(x, ys, key)) == multiset{x} + multiset(ys)
  {
    if ys != [] && key(ys[0]) > key(x) {
      InsertPermutes(x, ys[1..], key);
      assert ys == [ys[0]] + ys[1..];
    }
  }

  lemma {:induction false} InsertKeepsOrder<T>(x: T, ys: seq<T>, key: T -> int, bound: int)
    requires Descending(ys, key)
    requires key(x) <= bound && (ys != [] ==> key(ys[0]) <= bound)
    ensures Descending(Insert(x, ys, key), key)
    ensures forall j :: 0 <= j < |ys| + 1 ==> key(Insert(x, ys, key)[j]) <= bound
  {
    if ys != [] && key(ys[0]) > key(x) {
      InsertKeepsOrder(x, ys[1..], key, key(ys[0]));
    }
  }

  /** The result is the same elements, each as often as before, largest key first. */
  lemma {:induction false} SortedPermutation<T>(xs: seq<T>, key: T -> int)
    ensures Descending(SortDescending(xs, key), key)
    ensures multiset(SortDescending(xs, key)) == multiset(xs)
  {
    if xs != [] {
      SortedPermutation(xs[1..], key);
      var tail := SortDescending(xs[1..], key);
      InsertPermutes(xs[0], tail, key);
      InsertKeepsOrder(xs[0], tail, key, if tail == [] || key(tail[0]) <= key(xs[0]) then key(xs[0]) else key(tail[0]));
      assert xs == [xs[0]] + xs[1..];
    }
  }

  lemma {:induction false} FilterInsert<T(!new)>(x: T, ys: seq<T>, key: T -> int, p: T -> bool)
    requires Descending(ys, key)
    ensures Filter(Insert(x, ys, key), p) == if p(x) then Insert(x, Filter(ys, p), key) else Filter(ys, p)
  {
    if ys == [] {
    } else if key(ys[0]) <= key(x) {
      assert ([x] + ys)[1..] == ys;
      var f := Filter(ys, p);
      if f != [] {
        assert f[0] in f;
        var j :| 0 <= j < |ys| && ys[j] == f[0];
        assert key(f[0]) <= key(ys[0]);
      }
    } else {
      FilterInsert(x, ys[1..], key, p);
      assert ([ys[0]] + Insert(x, ys[1..], key))[1..] == Insert(x, ys[1..], key);
      if p(ys[0]) {
        assert ([ys[0]] + Filter(ys[1..], p))[1..] == Filter(ys[1..], p);
      } else if p(x) {
      }
    }
  }

  /** Stability in full: filtering commutes with sorting, for every predicate. In particular the
      elements of any one key come out in the order they went in. */
  lemma {:induction false} FilterCommutesWithSort<T(!new)>(xs: seq<T>, key: T -> int, p: T -> bool)
    ensures Filter(SortDescending(xs, key), p) == SortDescending(Filter(xs, p), key)
  {
    if xs != [] {
      FilterCommutesWithSort(xs[1..], key, p);
      SortedPermutation(xs[1..], key);
      FilterInsert(xs[0], SortDescending(xs[1..], key), key, p);
      if p(xs[0]) {
        assert Filter(xs, p)[1..] == Filter(xs[1..], p);
      }
    }
  }

  /** Where nothing that passes comes after something that fails, cutting is filtering. */
  lemma {:induction false} TakeWhileIsFilter<T(!new)>(xs: seq<T>, p: T -> bool)
    requires forall i, j :: 0 <= i < j < |xs| && p(xs[j]) ==> p(xs[i])
    ensures TakeWhile(xs, p) == Filter(xs, p)
  {
    if xs != [] {
      TakeWhileIsFilter(xs[1..], p);
      assert !p(xs[0]) && |xs| > 1 ==> !p(xs[1]);
    }
  }

  /** The head of the sorted list: nothing has a larger key, and nothing before it an equal one. */
  lemma {:induction false} HeadIsFirstMaximum<T>(xs: seq<T>, key: T -> int) returns (k: nat)
    requires xs != []
    ensures k < |xs| && SortDescending(xs, key)[0] == xs[k]
    ensures forall j :: 0 <= j < |xs| ==> key(xs[j]) <= key(xs[k])
    ensures forall j :: 0 <= j < k ==> key(xs[j]) < key(xs[k])
  {
    if |xs| == 1 {
      k := 0;
    } else {
      var m := HeadIsFirstMaximum(xs[1..], key);
      k := if key(xs[m + 1]) <= key(xs[0]) then 0 else m + 1;
      forall j | 0 <= j < |xs| ensures key(xs[j]) <= key(xs[k]) {
        if j > 0 { assert xs[j] == xs[1..][j - 1]; }
      }
      forall j | 0 <= j < k ensures key(xs[j]) < key(xs[k]) {
        if j > 0 { assert xs[j] == xs[1..][j - 1]; }
      }
    }
  }
}

/** Stable sorting by an integer key: the contract of Python's `sorted` and of
    JavaScript's `Array.sort`, which several parts of the system rely on.

    `SortBy` is one sort with that contract; `StableSortIsUnique` shows that
    the contract leaves no choice, so any stable sort returns the same list. */
module StableSort {
  import opened Common

  ghost predicate SortedBy<T>(s: seq<T>, key: T -> int) {
    forall i, j :: 0 <= i < j < |s| ==> key(s[i]) <= key(s[j])
  }

  /** Puts `x` before the first element whose key is not smaller. */
  function Insert<T>(x: T, s: seq<T>, key: T -> int): seq<T> {
    if s == [] || key(x) <= key(s[0]) then [x] + s
    else [s[0]] + Insert(x, s[1..], key)
  }

  function SortBy<T>(s: seq<T>, key: T -> int): seq<T> {
    if s == [] then [] else Insert(s[0], SortBy(s[1..], key), key)
  }

  /** The elements with key `k`, in order. */
  function WithKey<T>(s: seq<T>, key: T -> int, k: int): seq<T> {
    Filter(s, (x: T) => key(x) == k)
  }

  ghost predicate SameByKey<T>(a: seq<T>, b: seq<T>, key: T -> int) {
    forall k :: WithKey(a, key, k) == WithKey(b, key, k)
  }

  lemma {:induction false} InsertContents<T>(x: T, s: seq<T>, key: T -> int)
    ensures multiset(Insert(x, s, key)) == multiset{x} + multiset(s)
    ensures |Insert(x, s, key)| == |s| + 1
  {
    if s == [] || key(x) <= key(s[0]) {
    } else {
      InsertContents(x, s[1..], key);
      assert s == [s[0]] + s[1..];
    }
  }

  lemma {:induction false} InsertSorted<T>(x: T, s: seq<T>, key: T -> int)
    requires SortedBy(s, key)
    ensures SortedBy(Insert(x, s, key), key)
  {
    if s == [] || key(x) <= key(s[0]) {
    } else {
      var t := Insert(x, s[1..], key);
      InsertSorted(x, s[1..], key);
      InsertContents(x, s[1..], key);
      forall j | 0 <= j < |t|
        ensures key(s[0]) <= key(t[j])
      {
        assert t[j] in multiset(t);
      }
    }
  }

  lemma {:induction false} InsertByKey<T>(x: T, s: seq<T>, key: T -> int, k: int)
    requires SortedBy(s, key)
    ensures WithKey(Insert(x, s, key), key, k) == WithKey([x] + s, key, k)
  {
    var p := (y: T) => key(y) == k;
    if s == [] || key(x) <= key(s[0]) {
    } else {
      InsertByKey(x, s[1..], key, k);
      FilterConcat([s[0]], Insert(x, s[1..], key), p);
      FilterConcat([x], s[1..], p);
      FilterConcat([x], s, p);
      assert s == [s[0]] + s[1..];
      FilterConcat([s[0]], s[1..], p);
    }
  }

  /** `SortBy` returns a permutation, in ascending key order, that keeps the
      input order among equal keys. */
  lemma {:induction false} SortByContract<T>(s: seq<T>, key: T -> int)
    ensures multiset(SortBy(s, key)) == multiset(s) && |SortBy(s, key)| == |s|
    ensures SortedBy(SortBy(s, key), key)
    ensures SameByKey(SortBy(s, key), s, key)
  {
    if s != [] {
      var rest := SortBy(s[1..], key);
      SortByContract(s[1..], key);
      InsertContents(s[0], rest, key);
      InsertSorted(s[0], rest, key);
      assert s == [s[0]] + s[1..];
      forall k
        ensures WithKey(SortBy(s, key), key, k) == WithKey(s, key, k)
      {
        var p := (y: T) => key(y) == k;
        InsertByKey(s[0], rest, key, k);
        FilterConcat([s[0]], rest, p);
        FilterConcat([s[0]], s[1..], p);
        assert WithKey(rest, key, k) == WithKey(s[1..], key, k);
      }
    }
  }

  lemma {:induction false} SortMembers<T>(s: seq<T>, key: T -> int)
    ensures forall x :: x in SortBy(s, key) ==> x in s
    ensures forall x :: x in s ==> x in SortBy(s, key)
  {
    SortByContract(s, key);
    forall x | x in SortBy(s, key)
      ensures x in s
    {
      assert x in multiset(SortBy(s, key));
    }
    forall x | x in s
      ensures x in SortBy(s, key)
    {
      assert x in multiset(s);
    }
  }

  lemma {:induction false} WithKeyMembers<T>(s: seq<T>, key: T -> int, k: int)
    ensures forall x :: x in WithKey(s, key, k) ==> x in s && key(x) == k
    ensures forall x :: x in s && key(x) == k ==> x in WithKey(s, key, k)
  {
    FilterMembers(s, (x: T) => key(x) == k);
  }

  lemma {:induction false} WithKeyStep<T>(s: seq<T>, key: T -> int, k: int)
    requires s != []
    ensures WithKey(s[1..], key, k) == if key(s[0]) == k then WithKey(s, key, k)[1..] else WithKey(s, key, k)
    ensures key(s[0]) == k ==> WithKey(s, key, k) != [] && WithKey(s, key, k)[0] == s[0]
  {
    var p := (y: T) => key(y) == k;
    assert p(s[0]) <==> key(s[0]) == k;
    assert WithKey(s, key, k) == (if p(s[0]) then [s[0]] else []) + WithKey(s[1..], key, k);
  }

  lemma {:induction false} HeadsAgree<T>(a: seq<T>, b: seq<T>, key: T -> int)
    requires SortedBy(a, key) && SortedBy(b, key) && SameByKey(a, b, key) && a != []
    ensures b != [] && a[0] == b[0]
  {
    hide Filter;
    var ka := key(a[0]);
    WithKeyMembers(a, key, ka);
    WithKeyMembers(b, key, ka);
    assert WithKey(a, key, ka) == WithKey(b, key, ka);
    assert a[0] in WithKey(b, key, ka);
    var kb := key(b[0]);
    WithKeyMembers(a, key, kb);
    WithKeyMembers(b, key, kb);
    assert WithKey(a, key, kb) == WithKey(b, key, kb);
    assert b[0] in WithKey(a, key, kb);
    WithKeyStep(a, key, ka);
    WithKeyStep(b, key, ka);
  }

  lemma {:induction false} TailsAgree<T>(a: seq<T>, b: seq<T>, key: T -> int)
    requires SameByKey(a, b, key) && a != [] && b != [] && a[0] == b[0]
    ensures SameByKey(a[1..], b[1..], key)
  {
    forall k
      ensures WithKey(a[1..], key, k) == WithKey(b[1..], key, k)
    {
      assert WithKey(a, key, k) == WithKey(b, key, k);
      WithKeyStep(a, key, k);
      WithKeyStep(b, key, k);
    }
  }

  /** Sorted order plus stability determine the result. */
  lemma {:induction false} StableSortIsUnique<T>(a: seq<T>, b: seq<T>, key: T -> int)
    requires SortedBy(a, key) && SortedBy(b, key)
    requires SameByKey(a, b, key)
    ensures a == b
  {
    hide WithKey;
    if a == [] {
      if b != [] {
        HeadsAgree(b, a, key);
      }
    } else {
      HeadsAgree(a, b, key);
      TailsAgree(a, b, key);
      StableSortIsUnique(a[1..], b[1..], key);
    }
  }

  lemma {:induction false} SortOfSorted<T>(s: seq<T>, key: T -> int)
    requires SortedBy(s, key)
    ensures SortBy(s, key) == s
  {
    SortByContract(s, key);
    StableSortIsUnique(SortBy(s, key), s, key);
  }

  /** Lists with the same elements key by key sort to the same list. */
  lemma {:induction false} SortRespectsKeys<T>(a: seq<T>, b: seq<T>, key: T -> int)
    requires SameByKey(a, b, key)
    ensures SortBy(a, key) == SortBy(b, key)
  {
    SortByContract(a, key);
    SortByContract(b, key);
    forall k
      ensures WithKey(SortBy(a, key), key, k) == WithKey(SortBy(b, key), key, k)
    {
      assert WithKey(a, key, k) == WithKey(b, key, k);
      assert WithKey(SortBy(a, key), key, k) == WithKey(a, key, k);
      assert WithKey(SortBy(b, key), key, k) == WithKey(b, key, k);
    }
    StableSortIsUnique(SortBy(a, key), SortBy(b, key), key);
  }

  lemma {:induction false} FilterSorted<T>(s: seq<T>, key: T -> int, keep: T -> bool)
    requires SortedBy(s, key)
    ensures SortedBy(Filter(s, keep), key)
  {
    if s != [] {
      FilterSorted(s[1..], key, keep);
      FilterMembers(s[1..], keep);
      var rest := Filter(s[1..], keep);
      forall j | 0 <= j < |rest|
        ensures key(s[0]) <= key(rest[j])
      {
        assert rest[j] in rest;
        assert rest[j] in s[1..];
      }
    }
  }

  /** Filtering and stable sorting commute. */
  lemma {:induction false} FilterOfSort<T>(s: seq<T>, key: T -> int, keep: T -> bool)
    ensures Filter(SortBy(s, key), keep) == SortBy(Filter(s, keep), key)
  {
    SortByContract(s, key);
    SortByContract(Filter(s, keep), key);
    FilterSorted(SortBy(s, key), key, keep);
    forall k
      ensures WithKey(Filter(SortBy(s, key), keep), key, k) == WithKey(SortBy(Filter(s, keep), key), key, k)
    {
      var p := (y: T) => key(y) == k;
      var both := (y: T) => key(y) == k && keep(y);
      FilterTwice(SortBy(s, key), keep, p, both);
      FilterTwice(SortBy(s, key), p, keep, both);
      FilterTwice(s, keep, p, both);
      FilterTwice(s, p, keep, both);
      assert WithKey(SortBy(s, key), key, k) == WithKey(s, key, k);
    }
    StableSortIsUnique(Filter(SortBy(s, key), keep), SortBy(Filter(s, keep), key), key);
  }

  lemma {:induction false} WithKeyConcat<T>(a: seq<T>, b: seq<T>, key: T -> int, k: int)
    ensures WithKey(a + b, key, k) == WithKey(a, key, k) + WithKey(b, key, k)
  {
    FilterConcat(a, b, (x: T) => key(x) == k);
  }

  /** Sorting the tail first makes no difference. */
  lemma {:induction false} SortTail<T>(a: seq<T>, b: seq<T>, key: T -> int)
    ensures SortBy(a + SortBy(b, key), key) == SortBy(a + b, key)
  {
    SortByContract(b, key);
    forall k
      ensures WithKey(a + SortBy(b, key), key, k) == WithKey(a + b, key, k)
    {
      WithKeyConcat(a, SortBy(b, key), key, k);
      WithKeyConcat(a, b, key, k);
      assert WithKey(SortBy(b, key), key, k) == WithKey(b, key, k);
    }
    SortRespectsKeys(a + SortBy(b, key), a + b, key);
  }

  lemma {:induction false} SortedConcat<T>(s: seq<T>, t: seq<T>, key: T -> int)
    requires SortedBy(s, key) && SortedBy(t, key)
    requires forall i, j :: 0 <= i < |s| && 0 <= j < |t| ==> key(s[i]) <= key(t[j])
    ensures SortedBy(s + t, key)
  {
  }

  /** Lists that do not overlap in key sort separately. */
  lemma {:induction false} SortInTurn<T>(a: seq<T>, b: seq<T>, key: T -> int)
    requires forall x, y :: x in a && y in b ==> key(x) <= key(y)
    ensures SortBy(a + b, key) == SortBy(a, key) + SortBy(b, key)
  {
    var s, t := SortBy(a, key), SortBy(b, key);
    SortByContract(a, key);
    SortByContract(b, key);
    SortMembers(a, key);
    SortMembers(b, key);
    forall i, j | 0 <= i < |s| && 0 <= j < |t|
      ensures key(s[i]) <= key(t[j])
    {
      assert s[i] in s && t[j] in t;
      assert s[i] in a && t[j] in b;
    }
    SortedConcat(s, t, key);
    SortOfSorted(s + t, key);
    forall k
      ensures WithKey(s + t, key, k) == WithKey(a + b, key, k)
    {
      WithKeyConcat(s, t, key, k);
      WithKeyConcat(a, b, key, k);
      assert WithKey(s, key, k) == WithKey(a, key, k) && WithKey(t, key, k) == WithKey(b, key, k);
    }
    SortRespectsKeys(s + t, a + b, key);
  }

  lemma {:induction false} SumOfInsert<T>(x: T, s: seq<T>, key: T -> int, f: T -> int)
    ensures SumBy(Insert(x, s, key), f) == f(x) + SumBy(s, f)
  {
    if s == [] || key(x) <= key(s[0]) {
      assert ([x] + s)[1..] == s;
    } else {
      SumOfInsert(x, s[1..], key, f);
    }
  }

  /** Sorting does not change any sum over the elements. */
  lemma {:induction false} SumOfSort<T>(s: seq<T>, key: T -> int, f: T -> int)
    ensures SumBy(SortBy(s, key), f) == SumBy(s, f)
  {
    if s != [] {
      SumOfSort(s[1..], key, f);
      SumOfInsert(s[0], SortBy(s[1..], key), key, f);
    }
  }
}

/** Sequence operations shared by the stores and the views: `Array.filter`
    and the descending sort on a timestamp key. */
module Seqs {

  /** `a` can be obtained from `b` by deleting elements: order is preserved. */
  predicate IsSubsequence<T(==)>(a: seq<T>, b: seq<T>)
    decreases |b|
  {
    if a == [] then true
    else if b == [] then false
    else (a[0] == b[0] && IsSubsequence(a[1..], b[1..])) || IsSubsequence(a, b[1..])
  }

  /** `s.filter(f)`: exactly the elements satisfying `f`, in their order. */
  function Filter<T(==,!new)>(s: seq<T>, f: T -> bool): (r: seq<T>)
    ensures |r| <= |s|
    ensures forall x :: x in r <==> x in s && f(x)
  {
    if s == [] then []
    else
      var rest := Filter(s[1..], f);
      if f(s[0]) then [s[0]] + rest else rest
  }

  /** Filtering keeps every copy of what passes the test and no copy of the rest. */
  lemma {:induction false} FilterCount<T(!new)>(s: seq<T>, f: T -> bool)
    ensures forall x :: multiset(Filter(s, f))[x] == if f(x) then multiset(s)[x] else 0
    decreases |s|
  {
    if s != [] {
      FilterCount(s[1..], f);
      assert s == [s[0]] + s[1..];
    }
  }

  /** Filtering keeps the order of what it keeps. */
  lemma {:induction false} FilterIsSubsequence<T(!new)>(s: seq<T>, f: T -> bool)
    ensures IsSubsequence(Filter(s, f), s)
    decreases |s|
  {
    if s != [] {
      FilterIsSubsequence(s[1..], f);
      var r := Filter(s, f);
      if f(s[0]) {
        assert r[0] == s[0] && r[1..] == Filter(s[1..], f);
      }
    }
  }

  lemma {:induction false} FilterAppend<T(!new)>(a: seq<T>, b: seq<T>, f: T -> bool)
    ensures Filter(a + b, f) == Filter(a, f) + Filter(b, f)
    decreases |a|
  {
    if a == [] {
      assert a + b == b;
    } else {
      assert (a + b)[1..] == a[1..] + b;
      FilterAppend(a[1..], b, f);
    }
  }

  /** Filtering out the one element that fails the test leaves the rest in order. */
  lemma FilterDropsOne<T(!new)>(a: seq<T>, x: T, b: seq<T>, f: T -> bool)
    requires forall y :: y in a ==> f(y)
    requires forall y :: y in b ==> f(y)
    requires !f(x)
    ensures Filter(a + [x] + b, f) == a + b
  {
    assert Filter([x], f) == [];
    assert Filter(a + [x], f) == a by {
      FilterAppend(a, [x], f);
      FilterKeepsAll(a, f);
    }
    assert Filter(b, f) == b by {
      FilterKeepsAll(b, f);
    }
    FilterAppend(a + [x], b, f);
  }

  /** Two tests that agree on every element select the same elements. */
  lemma {:induction false} FilterSame<T(!new)>(s: seq<T>, f: T -> bool, g: T -> bool)
    requires forall x :: x in s ==> f(x) == g(x)
    ensures Filter(s, f) == Filter(s, g)
    decreases |s|
  {
    if s != [] {
      FilterSame(s[1..], f, g);
    }
  }

  /** A test every element passes keeps the whole sequence. */
  lemma {:induction false} FilterKeepsAll<T(!new)>(s: seq<T>, f: T -> bool)
    requires forall x :: x in s ==> f(x)
    ensures Filter(s, f) == s
    decreases |s|
  {
    if s != [] {
      FilterKeepsAll(s[1..], f);
    }
  }

  /** A test no element passes keeps nothing. */
  lemma {:induction false} FilterNone<T(!new)>(s: seq<T>, f: T -> bool)
    requires forall x :: x in s ==> !f(x)
    ensures Filter(s, f) == []
    decreases |s|
  {
    if s != [] {
      FilterNone(s[1..], f);
    }
  }

  /** Filtering twice is filtering once by both tests. */
  lemma {:induction false} FilterTwice<T(!new)>(s: seq<T>, f: T -> bool, g: T -> bool)
    ensures Filter(Filter(s, f), g) == Filter(s, x => f(x) && g(x))
    decreases |s|
  {
    if s != [] {
      FilterTwice(s[1..], f, g);
      if f(s[0]) {
        assert Filter(s, f)[0] == s[0] && Filter(s, f)[1..] == Filter(s[1..], f);
      }
    }
  }

  /** Every element's key is at least that of every later element. */
  ghost predicate SortedDesc<T>(s: seq<T>, key: T -> int)
  {
    forall i, j :: 0 <= i < j < |s| ==> key(s[i]) >= key(s[j])
  }

  /** Inserts `x` before the first element whose key is not larger. */
  function InsertDesc<T>(x: T, s: seq<T>, key: T -> int): (r: seq<T>)
    ensures multiset(r) == multiset(s) + multiset{x}
  {
    if s == [] then [x]
    else if key(x) >= key(s[0]) then [x] + s
    else
      var rest := InsertDesc(x, s[1..], key);
      assert s == [s[0]] + s[1..];
      [s[0]] + rest
  }

  /** Inserting into a sorted sequence keeps it sorted. */
  lemma {:induction false} InsertDescSorted<T>(x: T, s: seq<T>, key: T -> int)
    requires SortedDesc(s, key)
    ensures SortedDesc(InsertDesc(x, s, key), key)
    ensures |InsertDesc(x, s, key)| == |s| + 1
    ensures InsertDesc(x, s, key)[0] == x || (s != [] && InsertDesc(x, s, key)[0] == s[0])
    decreases |s|
  {
    if s != [] && key(x) < key(s[0]) {
      assert SortedDesc(s[1..], key) by {
        forall i, j | 0 <= i < j < |s[1..]|
          ensures key(s[1..][i]) >= key(s[1..][j])
        {
          assert key(s[i + 1]) >= key(s[j + 1]);
        }
      }
      InsertDescSorted(x, s[1..], key);
      ConsSortedDesc(s[0], InsertDesc(x, s[1..], key), key);
    }
  }

  /** A head whose key is at least the first key of a sorted sequence
      keeps it sorted. */
  lemma ConsSortedDesc<T>(h: T, s: seq<T>, key: T -> int)
    requires SortedDesc(s, key) && (s != [] ==> key(h) >= key(s[0]))
    ensures SortedDesc([h] + s, key)
  {
    var r := [h] + s;
    forall i, j | 0 <= i < j < |r|
      ensures key(r[i]) >= key(r[j])
    {
      assert r[j] == s[j - 1];
      if i == 0 {
        if j > 1 { assert key(s[0]) >= key(s[j - 1]); }
      } else {
        assert r[i] == s[i - 1];
      }
    }
  }

  /** `s.sort((a, b) => key(b) - key(a))`: the same elements. */
  function SortDesc<T>(s: seq<T>, key: T -> int): (r: seq<T>)
    ensures multiset(r) == multiset(s)
  {
    if s == [] then []
    else
      assert s == [s[0]] + s[1..];
      InsertDesc(s[0], SortDesc(s[1..], key), key)
  }

  /** The sort puts the largest key first. */
  lemma {:induction false} SortDescSorted<T>(s: seq<T>, key: T -> int)
    ensures SortedDesc(SortDesc(s, key), key)
    decreases |s|
  {
    if s != [] {
      SortDescSorted(s[1..], key);
      InsertDescSorted(s[0], SortDesc(s[1..], key), key);
    }
  }

  /** Filtering a sorted sequence keeps it sorted. */
  lemma {:induction false} FilterSortedDesc<T(!new)>(s: seq<T>, f: T -> bool, key: T -> int)
    requires SortedDesc(s, key)
    ensures SortedDesc(Filter(s, f), key)
    decreases |s|
  {
    if s != [] {
      FilterSortedDesc(s[1..], f, key);
      var rest := Filter(s[1..], f);
      if f(s[0]) {
        var r := [s[0]] + rest;
        forall i, j | 0 <= i < j < |r|
          ensures key(r[i]) >= key(r[j])
        {
          if i == 0 {
            assert r[j] in s[1..];
          }
        }
      }
    }
  }
}

/** Stable sorting by a strict weak order: what `sort.Strings` and
    `sort.SliceStable` promise, and the facts their callers rely on. */
module StableSort {
  import opened Seqs

  ghost predicate StrictWeakOrder<T(!new)>(less: (T, T) -> bool) {
    && (forall x, y :: less(x, y) ==> !less(y, x))
    && (forall x, y, z :: less(x, z) ==> less(x, y) || less(y, z))
  }

  /** No element is preceded by one that ranks after it. */
  ghost predicate Sorted<T>(less: (T, T) -> bool, s: seq<T>) {
    forall i, j :: 0 <= i < j < |s| ==> !less(s[j], s[i])
  }

  /** Different elements of `s` are never tied. */
  ghost predicate TotalOn<T>(less: (T, T) -> bool, s: seq<T>) {
    forall x, y :: x in s && y in s && x != y ==> less(x, y) || less(y, x)
  }

  lemma NotLessTransitive<T(!new)>(less: (T, T) -> bool, x: T, y: T, z: T)
    requires StrictWeakOrder(less) && !less(x, y) && !less(y, z)
    ensures !less(x, z)
  {
  }

  function Filter<T(!new)>(p: T -> bool, s: seq<T>): (r: seq<T>)
    ensures forall x {:trigger x in r} :: x in r <==> x in s && p(x)
    ensures |r| <= |s|
  {
    if |s| == 0 then []
    else
      var init := Filter(p, s[..|s| - 1]);
      assert s == s[..|s| - 1] + [s[|s| - 1]];
      if p(s[|s| - 1]) then init + [s[|s| - 1]] else init
  }

  /** Puts `x` after every element it does not rank before. */
  function Insert<T>(less: (T, T) -> bool, s: seq<T>, x: T): (r: seq<T>)
    ensures |r| == |s| + 1
  {
    if |s| > 0 && less(x, s[|s| - 1]) then Insert(less, s[..|s| - 1], x) + [s[|s| - 1]]
    else s + [x]
  }

  function Sort<T>(less: (T, T) -> bool, s: seq<T>): (r: seq<T>)
    ensures |r| == |s|
  {
    if |s| == 0 then [] else Insert(less, Sort(less, s[..|s| - 1]), s[|s| - 1])
  }

  lemma {:induction false} InsertMultiset<T>(less: (T, T) -> bool, s: seq<T>, x: T)
    ensures multiset(Insert(less, s, x)) == multiset(s) + multiset{x}
    decreases |s|
  {
    if |s| > 0 && less(x, s[|s| - 1]) {
      assert s == s[..|s| - 1] + [s[|s| - 1]];
      InsertMultiset(less, s[..|s| - 1], x);
    }
  }

  /** Sorting neither adds nor loses an element. */
  lemma {:induction false} SortMultiset<T>(less: (T, T) -> bool, s: seq<T>)
    ensures multiset(Sort(less, s)) == multiset(s)
    decreases |s|
  {
    if |s| > 0 {
      var init, last := s[..|s| - 1], s[|s| - 1];
      assert s == init + [last];
      SortMultiset(less, init);
      InsertMultiset(less, Sort(less, init), last);
    }
  }

  lemma SortMembers<T>(less: (T, T) -> bool, s: seq<T>, x: T)
    ensures x in Sort(less, s) <==> x in s
  {
    SortMultiset(less, s);
    assert x in multiset(Sort(less, s)) <==> x in multiset(s);
  }

  lemma {:induction false} InsertSorted<T(!new)>(less: (T, T) -> bool, s: seq<T>, x: T)
    requires StrictWeakOrder(less) && Sorted(less, s)
    ensures Sorted(less, Insert(less, s, x))
    decreases |s|
  {
    if |s| > 0 && less(x, s[|s| - 1]) {
      var init, last := s[..|s| - 1], s[|s| - 1];
      InsertSorted(less, init, x);
      var r := Insert(less, init, x);
      InsertMultiset(less, init, x);
      forall i | 0 <= i < |r| ensures !less(last, r[i]) {
        assert r[i] in multiset(r);
        assert r[i] == x || r[i] in init;
      }
    } else if |s| > 0 {
      var last := s[|s| - 1];
      forall i | 0 <= i < |s| ensures !less(x, s[i]) {
        if i < |s| - 1 {
          NotLessTransitive(less, x, last, s[i]);
        }
      }
    }
  }

  lemma {:induction false} SortSorted<T(!new)>(less: (T, T) -> bool, s: seq<T>)
    requires StrictWeakOrder(less)
    ensures Sorted(less, Sort(less, s))
    decreases |s|
  {
    if |s| > 0 {
      SortSorted(less, s[..|s| - 1]);
      InsertSorted(less, Sort(less, s[..|s| - 1]), s[|s| - 1]);
    }
  }

  lemma FilterPush<T(!new)>(p: T -> bool, s: seq<T>, x: T)
    ensures Filter(p, s + [x]) == Filter(p, s) + (if p(x) then [x] else [])
  {
    assert (s + [x])[..|s|] == s;
  }

  lemma {:induction false} FilterCount<T(!new)>(p: T -> bool, s: seq<T>, x: T)
    ensures multiset(Filter(p, s))[x] == if p(x) then multiset(s)[x] else 0
    decreases |s|
  {
    if |s| > 0 {
      FilterCount(p, s[..|s| - 1], x);
      assert s == s[..|s| - 1] + [s[|s| - 1]];
    }
  }

  lemma {:induction false} FilterDistinct<T(!new)>(p: T -> bool, s: seq<T>)
    requires Distinct(s)
    ensures Distinct(Filter(p, s))
    decreases |s|
  {
    if |s| > 0 {
      var init, last := s[..|s| - 1], s[|s| - 1];
      FilterDistinct(p, init);
      assert last !in init;
      assert last !in Filter(p, init);
    }
  }

  lemma {:induction false} FilterConcat<T(!new)>(p: T -> bool, a: seq<T>, b: seq<T>)
    ensures Filter(p, a + b) == Filter(p, a) + Filter(p, b)
    decreases |b|
  {
    if |b| == 0 {
      assert a + b == a;
    } else {
      assert (a + b)[..|a + b| - 1] == a + b[..|b| - 1];
      FilterConcat(p, a, b[..|b| - 1]);
    }
  }

  lemma {:induction false} FilterAll<T(!new)>(p: T -> bool, s: seq<T>)
    requires forall x :: x in s ==> p(x)
    ensures Filter(p, s) == s
    decreases |s|
  {
    if |s| > 0 {
      var init, last := s[..|s| - 1], s[|s| - 1];
      assert forall x :: x in init ==> x in s;
      FilterAll(p, init);
      assert last in s;
      assert s == init + [last];
    }
  }

  /** Filtering an insertion: the new element lands after every kept one it
      does not rank before. */
  lemma {:induction false} FilterInsert<T(!new)>(less: (T, T) -> bool, p: T -> bool, s: seq<T>, x: T)
    requires p(x) ==> forall y :: y in s && p(y) ==> !less(x, y)
    ensures Filter(p, Insert(less, s, x)) == Filter(p, s) + (if p(x) then [x] else [])
    decreases |s|
  {
    if |s| > 0 && less(x, s[|s| - 1]) {
      var init, last := s[..|s| - 1], s[|s| - 1];
      assert s == init + [last] && last in s;
      assert forall y :: y in init ==> y in s;
      FilterInsert(less, p, init, x);
      FilterPush(p, Insert(less, init, x), last);
      FilterPush(p, init, last);
      assert p(x) ==> !p(last);
    } else {
      FilterPush(p, s, x);
    }
  }

  /** Stability: a part of the input that is already in order keeps its order.
      Elements that tie with one another are such a part. */
  lemma {:induction false} SortKeepsOrderedPart<T(!new)>(less: (T, T) -> bool, p: T -> bool, s: seq<T>)
    requires Sorted(less, Filter(p, s))
    ensures Filter(p, Sort(less, s)) == Filter(p, s)
    decreases |s|
  {
    if |s| > 0 {
      var init, x := s[..|s| - 1], s[|s| - 1];
      var f := Filter(p, init);
      assert Filter(p, s) == if p(x) then f + [x] else f;
      assert Sorted(less, f) by {
        forall i, j | 0 <= i < j < |f| ensures !less(f[j], f[i]) {
          assert Filter(p, s)[i] == f[i] && Filter(p, s)[j] == f[j];
        }
      }
      SortKeepsOrderedPart(less, p, init);
      var t := Sort(less, init);
      if p(x) {
        forall y | y in t && p(y) ensures !less(x, y) {
          assert y in Filter(p, t);
          var k :| 0 <= k < |f| && f[k] == y;
          assert Filter(p, s)[k] == y && Filter(p, s)[|f|] == x;
        }
      }
      FilterInsert(less, p, t, x);
    }
  }

  lemma MultisetIn<T>(a: seq<T>, b: seq<T>, x: T)
    requires multiset(a) == multiset(b) && x in a
    ensures x in b
  {
    assert x in multiset(a);
  }

  lemma {:induction false} SortedLast<T(!new)>(less: (T, T) -> bool, a: seq<T>, b: seq<T>)
    requires Sorted(less, a) && Sorted(less, b) && TotalOn(less, a)
    requires multiset(a) == multiset(b) && |a| > 0 && |b| > 0
    ensures a[|a| - 1] == b[|b| - 1]
  {
    var x, y := a[|a| - 1], b[|b| - 1];
    MultisetIn(a, b, x);
    MultisetIn(b, a, y);
    var i :| 0 <= i < |b| && b[i] == x;
    var j :| 0 <= j < |a| && a[j] == y;
    assert x in a && y in a;
  }

  lemma SameSize<T>(a: seq<T>, b: seq<T>)
    requires multiset(a) == multiset(b)
    ensures |a| == |b|
  {
    assert |a| == |multiset(a)| && |b| == |multiset(b)|;
  }

  lemma {:induction false} InitFacts<T(!new)>(less: (T, T) -> bool, s: seq<T>)
    requires |s| > 0 && Sorted(less, s)
    ensures Sorted(less, s[..|s| - 1])
    ensures TotalOn(less, s) ==> TotalOn(less, s[..|s| - 1])
    ensures multiset(s[..|s| - 1]) == multiset(s) - multiset{s[|s| - 1]}
  {
    var init := s[..|s| - 1];
    assert s == init + [s[|s| - 1]];
    assert forall x :: x in init ==> x in s;
  }

  /** Without ties the order of a set of rows is unique: any two sorted
      arrangements of the same elements are the same sequence. */
  lemma {:induction false} SortedUnique<T(!new)>(less: (T, T) -> bool, a: seq<T>, b: seq<T>)
    requires Sorted(less, a) && Sorted(less, b) && TotalOn(less, a)
    requires multiset(a) == multiset(b)
    ensures a == b
    decreases |a|
  {
    SameSize(a, b);
    if |a| > 0 {
      SortedLast(less, a, b);
      var a', b' := a[..|a| - 1], b[..|b| - 1];
      InitFacts(less, a);
      InitFacts(less, b);
      SortedUnique(less, a', b');
      SameInitAndLast(a, b);
    }
  }

  /** Sorting forgets the input order when there are no ties. */
  lemma SortPermutation<T(!new)>(less: (T, T) -> bool, a: seq<T>, b: seq<T>)
    requires StrictWeakOrder(less) && TotalOn(less, a)
    requires multiset(a) == multiset(b)
    ensures Sort(less, a) == Sort(less, b)
  {
    SortSorted(less, a);
    SortSorted(less, b);
    SortMultiset(less, a);
    SortMultiset(less, b);
    forall x, y | x in Sort(less, a) && y in Sort(less, a) && x != y
      ensures less(x, y) || less(y, x)
    {
      SortMembers(less, a, x);
      SortMembers(less, a, y);
    }
    SortedUnique(less, Sort(less, a), Sort(less, b));
  }

  lemma {:induction false} InsertAt<T>(less: (T, T) -> bool, s: seq<T>, x: T, j: nat)
    requires j <= |s|
    requires forall k :: j <= k < |s| ==> less(x, s[k])
    requires j > 0 ==> !less(x, s[j - 1])
    ensures Insert(less, s, x) == s[..j] + [x] + s[j..]
    decreases |s|
  {
    if j < |s| {
      var init, last := s[..|s| - 1], s[|s| - 1];
      InsertAt(less, init, x, j);
      calc {
        Insert(less, s, x);
        (init[..j] + [x] + init[j..]) + [last];
        { assert init[..j] == s[..j] && init[j..] + [last] == s[j..]; }
        s[..j] + [x] + s[j..];
      }
    } else {
      assert s[..j] == s && s[j..] == [];
    }
  }

  lemma InsertedBy<T>(t: seq<T>, s: seq<T>, x: T, j: nat)
    requires j <= |s| && |t| == |s| + 1 && t[j] == x
    requires forall k :: 0 <= k < j ==> t[k] == s[k]
    requires forall k :: j <= k < |s| ==> t[k + 1] == s[k]
    ensures t == s[..j] + [x] + s[j..]
  {
    forall k | 0 <= k < |t| ensures t[k] == (s[..j] + [x] + s[j..])[k] {
      if k > j { assert t[(k - 1) + 1] == s[k - 1]; }
    }
  }

  /** Moves the element at `i` left to its place in the sorted part before it. */
  method InsertInPlace<T>(a: array<T>, i: nat, less: (T, T) -> bool)
    requires i < a.Length
    modifies a
    ensures a[..i + 1] == Insert(less, old(a[..i]), old(a[i]))
    ensures a[i + 1..] == old(a[i + 1..])
  {
    ghost var s := a[..i];
    var x := a[i];
    var j := i;
    while j > 0 && less(x, a[j - 1])
      invariant 0 <= j <= i
      invariant forall k :: 0 <= k < j ==> a[k] == s[k]
      invariant forall k :: j <= k < i ==> a[k + 1] == s[k] && less(x, s[k])
      invariant forall k :: i < k < a.Length ==> a[k] == old(a[k])
    {
      a[j] := a[j - 1];
      j := j - 1;
    }
    a[j] := x;
    InsertAt(less, s, x, j);
    InsertedBy(a[..i + 1], s, x, j);
  }

  /** In-place stable insertion sort, standing for Go's library sort. */
  method SortInPlace<T>(a: array<T>, less: (T, T) -> bool)
    modifies a
    ensures a[..] == Sort(less, old(a[..]))
  {
    ghost var was := a[..];
    var i := 0;
    while i < a.Length
      invariant 0 <= i <= a.Length
      invariant a[..i] == Sort(less, was[..i])
      invariant a[i..] == was[i..]
    {
      assert a[i] == was[i] && a[i + 1..] == was[i + 1..] by {
        assert a[i] == a[i..][0] && was[i] == was[i..][0];
        assert a[i + 1..] == a[i..][1..] && was[i + 1..] == was[i..][1..];
      }
      InsertInPlace(a, i, less);
      assert was[..i + 1][..i] == was[..i] && was[..i + 1][i] == was[i];
      i := i + 1;
    }
    assert a[..i] == a[..] && was[..i] == was;
  }
}

/** LIMIT and OFFSET over an ORDER BY. SQL fixes the order only up to ties, and
    every page is a query of its own, free to break ties in its own way. */
module Paging {
  import opened Seqs
  import S = StableSort

  function Window<T>(full: seq<T>, limit: nat, offset: nat): seq<T> {
    full[Min(offset, |full|)..Min(offset + limit, |full|)]
  }

  /** `full` is one order in which the database may deliver the rows. */
  ghost predicate Arrangement<T>(less: (T, T) -> bool, rows: seq<T>, full: seq<T>) {
    multiset(full) == multiset(rows) && S.Sorted(less, full)
  }

  /** `page` is a possible answer of the query. */
  ghost predicate IsPage<T(!new)>(less: (T, T) -> bool, rows: seq<T>, limit: nat, offset: nat, page: seq<T>) {
    exists full :: Arrangement(less, rows, full) && page == Window(full, limit, offset)
  }

  /** Where page `k` starts. */
  function Offset(k: nat, limit: nat): nat {
    k * limit
  }

  /** The answers for offsets 0, L, 2L, ... up to the end of the list. */
  ghost predicate Paged<T(!new)>(less: (T, T) -> bool, rows: seq<T>, limit: nat, pages: seq<seq<T>>) {
    && Offset(|pages|, limit) >= |rows|
    && forall k :: 0 <= k < |pages| ==> IsPage(less, rows, limit, Offset(k, limit), pages[k])
  }

  function Concat<T>(pages: seq<seq<T>>): seq<T> {
    if |pages| == 0 then [] else Concat(pages[..|pages| - 1]) + pages[|pages| - 1]
  }

  lemma {:induction false} OnlyArrangement<T(!new)>(less: (T, T) -> bool, rows: seq<T>, full: seq<T>)
    requires S.StrictWeakOrder(less) && S.TotalOn(less, rows) && Arrangement(less, rows, full)
    ensures full == S.Sort(less, rows)
  {
    var sorted := S.Sort(less, rows);
    S.SortSorted(less, rows);
    S.SortMultiset(less, rows);
    forall x, y | x in sorted && y in sorted && x != y ensures less(x, y) || less(y, x) {
      S.SortMembers(less, rows, x);
      S.SortMembers(less, rows, y);
    }
    S.SortedUnique(less, sorted, full);
  }

  lemma NextWindow<T>(full: seq<T>, limit: nat, n: nat)
    ensures full[..Min(Offset(n, limit), |full|)] + Window(full, limit, Offset(n, limit))
            == full[..Min(Offset(n + 1, limit), |full|)]
  {
    var o := Offset(n, limit);
    assert Offset(n + 1, limit) == o + limit;
    var a, b := Min(o, |full|), Min(o + limit, |full|);
    assert full[..a] + full[a..b] == full[..b];
  }

  lemma {:induction false} ConcatWindows<T>(full: seq<T>, limit: nat, pages: seq<seq<T>>)
    requires forall k :: 0 <= k < |pages| ==> pages[k] == Window(full, limit, Offset(k, limit))
    ensures Concat(pages) == full[..Min(Offset(|pages|, limit), |full|)]
    decreases |pages|
  {
    if |pages| > 0 {
      var init := pages[..|pages| - 1];
      ConcatWindows(full, limit, init);
      NextWindow(full, limit, |init|);
    }
  }

  lemma {:induction false} PageIsWindow<T(!new)>(less: (T, T) -> bool, rows: seq<T>, limit: nat, offset: nat,
                                                 page: seq<T>)
    requires S.StrictWeakOrder(less) && S.TotalOn(less, rows) && IsPage(less, rows, limit, offset, page)
    ensures page == Window(S.Sort(less, rows), limit, offset)
  {
    var f :| Arrangement(less, rows, f) && page == Window(f, limit, offset);
    OnlyArrangement(less, rows, f);
  }

  lemma {:induction false} PagesAreWindows<T(!new)>(less: (T, T) -> bool, rows: seq<T>, limit: nat, pages: seq<seq<T>>)
    requires S.StrictWeakOrder(less) && S.TotalOn(less, rows) && Paged(less, rows, limit, pages)
    ensures forall k :: 0 <= k < |pages| ==> pages[k] == Window(S.Sort(less, rows), limit, Offset(k, limit))
  {
    forall k | 0 <= k < |pages| ensures pages[k] == Window(S.Sort(less, rows), limit, Offset(k, limit)) {
      PageIsWindow(less, rows, limit, Offset(k, limit), pages[k]);
    }
  }

  lemma TakeWhole<T>(full: seq<T>, n: nat)
    requires n >= |full|
    ensures full[..Min(n, |full|)] == full
  {
  }

  /** When no two different rows tie, the pages put together are the whole
      ordered list: no gap and no repeat, for every page size. */
  lemma {:induction false} PagesMakeTheList<T(!new)>(less: (T, T) -> bool, rows: seq<T>, limit: nat, pages: seq<seq<T>>)
    requires S.StrictWeakOrder(less) && S.TotalOn(less, rows) && Paged(less, rows, limit, pages)
    ensures Concat(pages) == S.Sort(less, rows)
  {
    PagesAreWindows(less, rows, limit, pages);
    ConcatWindows(S.Sort(less, rows), limit, pages);
    TakeWhole(S.Sort(less, rows), Offset(|pages|, limit));
  }

  /** No row is lost or repeated, whatever the page size and the tie-breaking. */
  ghost predicate PagingIsSafe<T(!new)>(less: (T, T) -> bool, rows: seq<T>) {
    forall limit: nat, pages :: limit >= 1 && Paged(less, rows, limit, pages) ==>
      multiset(Concat(pages)) == multiset(rows)
  }

  lemma SwappedPair<T(!new)>(less: (T, T) -> bool, full: seq<T>, i: nat, j: nat, a: nat, b: nat)
    requires S.StrictWeakOrder(less) && S.Sorted(less, full)
    requires i < j < |full| && !less(full[i], full[j]) && a < b < |full|
    ensures var swapped := full[i := full[j]][j := full[i]]; !less(swapped[b], swapped[a])
  {
    if a == i && b < j { S.NotLessTransitive(less, full[b], full[i], full[j]); }
    if a < i && b == i { S.NotLessTransitive(less, full[j], full[i], full[a]); }
    if a < i && b == j { S.NotLessTransitive(less, full[i], full[j], full[a]); }
    if i < a && b == j { S.NotLessTransitive(less, full[i], full[j], full[a]); }
    if a == i && b > j { S.NotLessTransitive(less, full[b], full[i], full[j]); }
    if a == j { S.NotLessTransitive(less, full[b], full[j], full[i]); }
  }

  lemma SwapTied<T(!new)>(less: (T, T) -> bool, rows: seq<T>, full: seq<T>, i: nat, j: nat)
    requires S.StrictWeakOrder(less) && Arrangement(less, rows, full)
    requires i < j < |full| && !less(full[i], full[j])
    ensures Arrangement(less, rows, full[i := full[j]][j := full[i]])
  {
    var swapped := full[i := full[j]][j := full[i]];
    forall a, b | 0 <= a < b < |full| ensures !less(swapped[b], swapped[a]) {
      SwappedPair(less, full, i, j, a, b);
    }
  }

  function Singles<T>(full: seq<T>): (pages: seq<seq<T>>)
    ensures |pages| == |full| && forall k :: 0 <= k < |full| ==> pages[k] == [full[k]]
  {
    seq(|full|, k requires 0 <= k < |full| => [full[k]])
  }

  lemma {:induction false} ConcatSingles<T>(full: seq<T>)
    ensures Concat(Singles(full)) == full
    decreases |full|
  {
    if |full| > 0 {
      var init := full[..|full| - 1];
      ConcatSingles(init);
      assert Singles(full)[..|full| - 1] == Singles(init);
    }
  }

  lemma {:induction false} TiedPages<T(!new)>(less: (T, T) -> bool, rows: seq<T>, full: seq<T>, i: nat, j: nat)
    requires S.StrictWeakOrder(less) && Arrangement(less, rows, full)
    requires i < j < |full| && !less(full[i], full[j])
    ensures Paged(less, rows, 1, Singles(full[j := full[i]]))
  {
    var swapped := full[i := full[j]][j := full[i]];
    SwapTied(less, rows, full, i, j);
    var pages := Singles(full[j := full[i]]);
    forall k | 0 <= k < |pages| ensures IsPage(less, rows, 1, Offset(k, 1), pages[k]) {
      var from := if k == j then swapped else full;
      assert Offset(k, 1) == k && Window(from, 1, k) == [from[k]];
      assert Arrangement(less, rows, from);
    }
    S.SameSize(full, rows);
  }

  lemma {:induction false} TieAt<T(!new)>(less: (T, T) -> bool, rows: seq<T>, full: seq<T>, i: nat, j: nat)
    requires S.StrictWeakOrder(less) && Arrangement(less, rows, full)
    requires i < j < |full| && full[i] != full[j] && !less(full[i], full[j])
    ensures !PagingIsSafe(less, rows)
  {
    var shown := full[j := full[i]];
    TiedPages(less, rows, full, i, j);
    ConcatSingles(shown);
    assert multiset(shown)[full[i]] == multiset(full)[full[i]] + 1;
    assert multiset(Concat(Singles(shown))) != multiset(rows);
  }

  /** Two different tied rows: pages of one row, answered in two orders, show one
      of them twice. */
  lemma {:induction false} TieBreaksPaging<T(!new)>(less: (T, T) -> bool, rows: seq<T>, x: T, y: T)
    requires S.StrictWeakOrder(less)
    requires x in rows && y in rows && x != y && !less(x, y) && !less(y, x)
    ensures !PagingIsSafe(less, rows)
  {
    var full := S.Sort(less, rows);
    S.SortSorted(less, rows);
    S.SortMultiset(less, rows);
    S.SortMembers(less, rows, x);
    S.SortMembers(less, rows, y);
    var i :| 0 <= i < |full| && full[i] == x;
    var j :| 0 <= j < |full| && full[j] == y;
    if i < j { TieAt(less, rows, full, i, j); } else { TieAt(less, rows, full, j, i); }
  }

  /** Offset paging is safe if and only if no two different rows tie. */
  lemma {:induction false} SafeIffNoTies<T(!new)>(less: (T, T) -> bool, rows: seq<T>)
    requires S.StrictWeakOrder(less)
    ensures PagingIsSafe(less, rows) <==> S.TotalOn(less, rows)
  {
    if S.TotalOn(less, rows) {
      forall limit: nat, pages | limit >= 1 && Paged(less, rows, limit, pages)
        ensures multiset(Concat(pages)) == multiset(rows)
      {
        PagesMakeTheList(less, rows, limit, pages);
        S.SortMultiset(less, rows);
      }
    } else {
      var x, y :| x in rows && y in rows && x != y && !less(x, y) && !less(y, x);
      TieBreaksPaging(less, rows, x, y);
    }
  }

  // ----- a limit without an offset -----

  /** Every answer to the query holds the same rows. */
  ghost predicate TopIsDetermined<T(!new)>(less: (T, T) -> bool, rows: seq<T>, limit: nat) {
    forall p, q :: IsPage(less, rows, limit, 0, p) && IsPage(less, rows, limit, 0, q) ==> SetOf(p) == SetOf(q)
  }

  lemma {:induction false} CountOfDistinct<T>(s: seq<T>)
    ensures Distinct(s) <==> forall x :: multiset(s)[x] <= 1
    decreases |s|
  {
    if |s| > 0 {
      var init, last := s[..|s| - 1], s[|s| - 1];
      CountOfDistinct(init);
      assert s == init + [last];
      assert multiset(s) == multiset(init) + multiset{last};
      if forall x :: multiset(s)[x] <= 1 {
        forall x ensures multiset(init)[x] <= 1 { assert multiset(s)[x] <= 1; }
        assert multiset(s)[last] <= 1;
        assert last !in init;
      }
      if Distinct(s) {
        assert last !in init;
        forall x ensures multiset(s)[x] <= 1 { assert multiset(init)[x] <= 1; }
      }
    }
  }

  lemma {:induction false} ArrangementIsDistinct<T(!new)>(less: (T, T) -> bool, rows: seq<T>, full: seq<T>)
    requires Distinct(rows) && Arrangement(less, rows, full)
    ensures Distinct(full) && |full| == |rows|
  {
    CountOfDistinct(rows);
    CountOfDistinct(full);
    S.SameSize(full, rows);
  }

  lemma DistinctPrefix<T>(s: seq<T>, n: nat)
    requires Distinct(s) && n <= |s|
    ensures Distinct(s[..n])
  {
  }

  /** Two sets of one size that differ differ both ways. */
  lemma Missing<T>(b: set<T>, a: set<T>, x: T) returns (y: T)
    requires |a| == |b| && x in a && x !in b
    ensures y in b && y !in a
  {
    if b <= a { SubsetSize(b, a); }
    y :| y in b && y !in a;
  }

  lemma RanksThrough<T(!new)>(less: (T, T) -> bool, a: T, b: T, c: T, d: T)
    requires S.StrictWeakOrder(less) && less(b, c) && !less(b, a) && !less(d, c)
    ensures less(a, d)
  {
    if !less(a, d) {
      S.NotLessTransitive(less, b, a, d);
      S.NotLessTransitive(less, b, d, c);
    }
  }

  lemma AcrossTheCut<T(!new)>(less: (T, T) -> bool, full: seq<T>, limit: nat, i: nat, j: nat)
    requires S.StrictWeakOrder(less) && S.Sorted(less, full)
    requires i < limit <= j < |full| && less(full[limit - 1], full[limit])
    ensures less(full[i], full[j])
  {
    RanksThrough(less, full[i], full[limit - 1], full[limit], full[j]);
  }

  lemma ComesFirst<T(!new)>(less: (T, T) -> bool, full: seq<T>, k: nat, m: nat)
    requires S.StrictWeakOrder(less) && S.Sorted(less, full)
    requires k < |full| && m < |full| && less(full[k], full[m])
    ensures k < m
  {
    assert !less(full[m], full[k]);
  }

  lemma IndexIn<T>(s: seq<T>, x: T) returns (i: nat)
    requires x in s
    ensures i < |s| && s[i] == x
  {
    i :| i < |s| && s[i] == x;
  }

  lemma TakeMember<T>(s: seq<T>, n: nat, i: nat)
    requires Distinct(s) && n <= |s| && i < |s|
    ensures s[i] in s[..n] <==> i < n
  {
    if i < n { assert s[..n][i] == s[i]; }
  }

  /** A row from behind the cut is not ahead of it when one from ahead is not. */
  lemma {:induction false} Misplaced<T(!new)>(less: (T, T) -> bool, full: seq<T>, other: seq<T>, limit: nat, x: T, y: T)
    requires S.StrictWeakOrder(less) && S.Sorted(less, full) && S.Sorted(less, other)
    requires Distinct(full) && Distinct(other) && multiset(full) == multiset(other) && 0 < limit < |full| == |other|
    requires less(full[limit - 1], full[limit]) && x in full[..limit] && x !in other[..limit] && y in other[..limit]
    ensures y in full[..limit]
  {
    if y !in full[..limit] {
      S.MultisetIn(full, other, x);
      S.MultisetIn(other, full, y);
      var i := IndexIn(full, x);
      var j := IndexIn(full, y);
      var k := IndexIn(other, x);
      var m := IndexIn(other, y);
      TakeMember(full, limit, i);
      TakeMember(full, limit, j);
      TakeMember(other, limit, k);
      TakeMember(other, limit, m);
      AcrossTheCut(less, full, limit, i, j);
      ComesFirst(less, other, k, m);
    }
  }

  /** Across a cut where the order decides, every arrangement has the same rows
      ahead of the cut. */
  lemma {:induction false} SameTop<T(!new)>(less: (T, T) -> bool, rows: seq<T>, full: seq<T>, other: seq<T>, limit: nat)
    requires S.StrictWeakOrder(less) && Distinct(rows) && 0 < limit < |full|
    requires Arrangement(less, rows, full) && Arrangement(less, rows, other) && less(full[limit - 1], full[limit])
    ensures |other| == |full| && SetOf(other[..limit]) == SetOf(full[..limit])
  {
    ArrangementIsDistinct(less, rows, full);
    ArrangementIsDistinct(less, rows, other);
    DistinctPrefix(full, limit);
    DistinctPrefix(other, limit);
    SetOfSize(full[..limit]);
    SetOfSize(other[..limit]);
    var a, b := SetOf(full[..limit]), SetOf(other[..limit]);
    forall x | x in a ensures x in b {
      if x !in b {
        var y := Missing(b, a, x);
        Misplaced(less, full, other, limit, x, y);
      }
    }
    SubsetSize(a, b);
  }

  lemma {:induction false} TiedTop<T(!new)>(less: (T, T) -> bool, rows: seq<T>, full: seq<T>, limit: nat)
    requires S.StrictWeakOrder(less) && Arrangement(less, rows, full) && Distinct(full)
    requires 0 < limit < |full| && !less(full[limit - 1], full[limit])
    ensures !TopIsDetermined(less, rows, limit)
  {
    var x, y := full[limit - 1], full[limit];
    var swapped := full[limit - 1 := y][limit := x];
    SwapTied(less, rows, full, limit - 1, limit);
    var p, q := Window(full, limit, 0), Window(swapped, limit, 0);
    assert p == full[..limit] && q == swapped[..limit];
    assert IsPage(less, rows, limit, 0, p) && IsPage(less, rows, limit, 0, q);
    assert p[limit - 1] == x && x in SetOf(p);
    assert x !in q;
  }

  /** With a limit and no offset the answer holds the same rows whatever the
      tie-breaking exactly when the last row shown ranks before the first one
      left out. */
  lemma {:induction false} TopIsDeterminedIff<T(!new)>(less: (T, T) -> bool, rows: seq<T>, limit: nat)
    requires S.StrictWeakOrder(less) && Distinct(rows) && 0 < limit < |rows|
    ensures |S.Sort(less, rows)| == |rows|
    ensures TopIsDetermined(less, rows, limit) <==> less(S.Sort(less, rows)[limit - 1], S.Sort(less, rows)[limit])
  {
    var full := S.Sort(less, rows);
    S.SortSorted(less, rows);
    S.SortMultiset(less, rows);
    ArrangementIsDistinct(less, rows, full);
    if less(full[limit - 1], full[limit]) {
      forall p, q | IsPage(less, rows, limit, 0, p) && IsPage(less, rows, limit, 0, q) ensures SetOf(p) == SetOf(q) {
        var f :| Arrangement(less, rows, f) && p == Window(f, limit, 0);
        var g :| Arrangement(less, rows, g) && q == Window(g, limit, 0);
        SameTop(less, rows, full, f, limit);
        SameTop(less, rows, full, g, limit);
      }
    } else {
      TiedTop(less, rows, full, limit);
    }
  }
}

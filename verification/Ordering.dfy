/** Byte-wise string order, as Go's `<` on strings and `sort.Strings` use it. */
module Ordering {

  predicate LexLess(a: string, b: string)
    decreases |a|
  {
    if |b| == 0 then false
    else if |a| == 0 then true
    else a[0] < b[0] || (a[0] == b[0] && LexLess(a[1..], b[1..]))
  }

  /** Exactly one of "less", "equal" and "greater" holds. */
  lemma {:induction false} LexTrichotomy(a: string, b: string)
    ensures LexLess(a, b) ==> a != b && !LexLess(b, a)
    ensures a == b || LexLess(a, b) || LexLess(b, a)
    decreases |a|
  {
    if |a| > 0 && |b| > 0 {
      LexTrichotomy(a[1..], b[1..]);
      assert a == [a[0]] + a[1..] && b == [b[0]] + b[1..];
    }
  }

  /** The texts agree in their first `n` characters, and there `a` ends or has the
      smaller character. */
  ghost predicate FirstDifference(a: string, b: string, n: nat) {
    && n <= |a| && n < |b| && a[..n] == b[..n]
    && (n == |a| || a[n] < b[n])
  }

  /** The first difference decides. */
  lemma {:induction false} LexLessIff(a: string, b: string)
    ensures LexLess(a, b) <==> exists n: nat :: FirstDifference(a, b, n)
    decreases |a|
  {
    if LexLess(a, b) {
      if |a| == 0 || a[0] < b[0] {
        assert FirstDifference(a, b, 0);
      } else {
        LexLessIff(a[1..], b[1..]);
        var n: nat :| FirstDifference(a[1..], b[1..], n);
        assert a[..n + 1] == [a[0]] + a[1..][..n] && b[..n + 1] == [b[0]] + b[1..][..n];
        assert FirstDifference(a, b, n + 1);
      }
    }
    if n: nat :| FirstDifference(a, b, n) {
      if n > 0 {
        assert a[0] == a[..n][0] == b[..n][0] == b[0];
        assert a[1..][..n - 1] == a[..n][1..] && b[1..][..n - 1] == b[..n][1..];
        assert FirstDifference(a[1..], b[1..], n - 1);
        LexLessIff(a[1..], b[1..]);
      }
    }
  }

  lemma {:induction false} LexTransitive(a: string, b: string, c: string)
    requires LexLess(a, b) && LexLess(b, c)
    ensures LexLess(a, c)
    decreases |a|
  {
    if |a| > 0 && a[0] == b[0] && b[0] == c[0] {
      LexTransitive(a[1..], b[1..], c[1..]);
    }
  }

  /** A shared prefix does not take part in the comparison. */
  lemma {:induction false} LexSharedPrefix(p: string, a: string, b: string)
    ensures LexLess(p + a, p + b) == LexLess(a, b)
    decreases |p|
  {
    if |p| == 0 {
      assert p + a == a && p + b == b;
    } else {
      LexSharedPrefix(p[1..], a, b);
      assert (p + a)[1..] == p[1..] + a && (p + b)[1..] == p[1..] + b;
    }
  }

  /** Different prefixes of one length decide the comparison alone. */
  lemma {:induction false} LexPrefixDecides(p: string, q: string, a: string, b: string)
    requires |p| == |q| && p != q
    ensures LexLess(p + a, q + b) == LexLess(p, q)
    decreases |p|
  {
    assert (p + a)[1..] == p[1..] + a && (q + b)[1..] == q[1..] + b;
    if p[0] == q[0] {
      assert p == [p[0]] + p[1..] && q == [q[0]] + q[1..];
      LexPrefixDecides(p[1..], q[1..], a, b);
    }
  }
}

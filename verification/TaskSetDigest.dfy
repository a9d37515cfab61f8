/** The order-independent digest that ties a delete preview to the delete. */
module TaskSetDigest {
  import opened Ids
  import opened Ordering
  import S = StableSort

  /** The text form of a digest. `NoCheck` is the empty string, which no hash
      produces; SHA-256 is taken to be free of collisions, so a hash stands for
      the text it was computed from. */
  datatype Digest = NoCheck | Sha256(text: string)

  function Join(ss: seq<string>): string {
    if |ss| == 0 then ""
    else if |ss| == 1 then ss[0]
    else ss[0] + "\n" + Join(ss[1..])
  }

  function DigestOf(ids: seq<Uuid>): Digest {
    Sha256(Join(S.Sort<string>(LexLess, ids)))
  }

  lemma LexIsStrictWeakOrder()
    ensures S.StrictWeakOrder<string>(LexLess)
  {
    forall x, y | LexLess(x, y) ensures !LexLess(y, x) {
      LexTrichotomy(x, y);
    }
    forall x, y, z | LexLess(x, z) ensures LexLess(x, y) || LexLess(y, z) {
      LexTrichotomy(x, y);
      if LexLess(y, x) { LexTransitive(y, x, z); }
    }
  }

  lemma LexIsTotalOn(s: seq<string>)
    ensures S.TotalOn<string>(LexLess, s)
  {
    forall x, y | x in s && y in s && x != y ensures LexLess(x, y) || LexLess(y, x) {
      LexTrichotomy(x, y);
    }
  }

  ghost predicate AllUuids(ss: seq<string>) {
    forall s :: s in ss ==> IsUuidText(s)
  }

  lemma {:induction false} JoinLength(a: seq<string>)
    requires AllUuids(a)
    ensures |Join(a)| == if |a| == 0 then 0 else 37 * |a| - 1
    decreases |a|
  {
    if |a| > 0 {
      assert a[0] in a;
      JoinLength(a[1..]);
    }
  }

  lemma {:induction false} JoinInjective(a: seq<string>, b: seq<string>)
    requires AllUuids(a) && AllUuids(b) && Join(a) == Join(b)
    ensures a == b
    decreases |a|
  {
    JoinLength(a);
    JoinLength(b);
    if |a| == 0 || |b| == 0 {
    } else if |a| == 1 || |b| == 1 {
      assert a[0] in a && b[0] in b;
    } else {
      assert a[0] in a && b[0] in b;
      assert Join(a)[..36] == a[0] && Join(b)[..36] == b[0];
      assert Join(a)[37..] == Join(a[1..]) && Join(b)[37..] == Join(b[1..]);
      JoinInjective(a[1..], b[1..]);
      assert a == [a[0]] + a[1..] && b == [b[0]] + b[1..];
    }
  }

  /** Two digests agree exactly when the ids are the same up to order. */
  lemma DigestIffPermutation(a: seq<Uuid>, b: seq<Uuid>)
    ensures DigestOf(a) == DigestOf(b) <==> multiset(a) == multiset(b)
  {
    var sa: seq<string>, sb: seq<string> := S.Sort<string>(LexLess, a), S.Sort<string>(LexLess, b);
    S.SortMultiset<string>(LexLess, a);
    S.SortMultiset<string>(LexLess, b);
    if DigestOf(a) == DigestOf(b) {
      forall s | s in sa ensures IsUuidText(s) { S.SortMembers<string>(LexLess, a, s); }
      forall s | s in sb ensures IsUuidText(s) { S.SortMembers<string>(LexLess, b, s); }
      JoinInjective(sa, sb);
    }
    if multiset(a) == multiset(b) {
      LexIsStrictWeakOrder();
      LexIsTotalOn(a);
      S.SortPermutation<string>(LexLess, a, b);
    }
  }

  lemma {:induction false} DistinctCounts(a: seq<Uuid>)
    requires forall i, j :: 0 <= i < j < |a| ==> a[i] != a[j]
    ensures forall x :: multiset(a)[x] == if x in a then 1 else 0
    decreases |a|
  {
    if |a| > 0 {
      var init := a[..|a| - 1];
      DistinctCounts(init);
      assert a == init + [a[|a| - 1]];
    }
  }

  /** On lists without repetition the digest identifies the set of ids. */
  lemma DigestIffSameSet(a: seq<Uuid>, b: seq<Uuid>)
    requires forall i, j :: 0 <= i < j < |a| ==> a[i] != a[j]
    requires forall i, j :: 0 <= i < j < |b| ==> b[i] != b[j]
    ensures DigestOf(a) == DigestOf(b) <==> (forall x :: x in a <==> x in b)
  {
    DigestIffPermutation(a, b);
    DistinctCounts(a);
    DistinctCounts(b);
    if DigestOf(a) == DigestOf(b) {
      forall x ensures x in a <==> x in b {
        assert x in a <==> x in multiset(a);
        assert x in b <==> x in multiset(b);
      }
    }
  }

  method TaskSetDigest(ids: seq<Uuid>) returns (d: Digest)
    ensures d == DigestOf(ids)
    ensures d != NoCheck
  {
    var ss := new string[|ids|];
    var i := 0;
    while i < |ids|
      invariant 0 <= i <= |ids|
      invariant ss[..i] == ids[..i]
    {
      ss[i] := ids[i];
      i := i + 1;
    }
    assert ss[..] == ids;
    S.SortInPlace<string>(ss, LexLess);
    d := Sha256(Join(ss[..]));
  }
}

/** The per-type cap: the best items of every type, types in first-seen order. */
module TypeCaps {
  import opened Ids
  import opened PackItems
  import opened Seqs
  import S = StableSort

  /** The types in the order they first occur. */
  function TypeOrder(items: seq<Item>): seq<string> {
    if |items| == 0 then []
    else
      var init := TypeOrder(items[..|items| - 1]);
      var t := items[|items| - 1].typ;
      if t in init then init else init + [t]
  }

  function Ranked(items: seq<Item>, t: string): seq<Item> {
    S.Sort(RanksBefore, OfType(items, t))
  }

  function Top(items: seq<Item>, t: string): seq<Item> {
    Ranked(items, t)[..Min(TypeCap(t), |Ranked(items, t)|)]
  }

  function BelowCap(items: seq<Item>, t: string): seq<Item> {
    Ranked(items, t)[Min(TypeCap(t), |Ranked(items, t)|)..]
  }

  function Tops(items: seq<Item>, order: seq<string>): seq<Item> {
    if |order| == 0 then [] else Tops(items, order[..|order| - 1]) + Top(items, order[|order| - 1])
  }

  function Capped(items: seq<Item>): seq<Item> {
    Tops(items, TypeOrder(items))
  }

  ghost predicate DistinctTypes(order: seq<string>) {
    forall i, j :: 0 <= i < j < |order| ==> order[i] != order[j]
  }

  lemma {:induction false} TypeOrderFacts(items: seq<Item>)
    ensures DistinctTypes(TypeOrder(items))
    ensures forall t :: t in TypeOrder(items) <==> exists x :: x in items && x.typ == t
    decreases |items|
  {
    if |items| > 0 {
      var init, x := items[..|items| - 1], items[|items| - 1];
      TypeOrderFacts(init);
      assert items == init + [x];
      forall t ensures t in TypeOrder(items) <==> exists y :: y in items && y.typ == t {
        if t == x.typ { assert x in items; }
        if y :| y in init && y.typ == t { assert y in items; }
      }
    }
  }

  lemma NoneLeft(p: Item -> bool, s: seq<Item>)
    requires forall x :: x in s ==> !p(x)
    ensures S.Filter(p, s) == []
  {
    if S.Filter(p, s) != [] {
      assert S.Filter(p, s)[0] in S.Filter(p, s);
    }
  }

  lemma NoneOfType(items: seq<Item>, t: string)
    requires t !in TypeOrder(items)
    ensures OfType(items, t) == []
  {
    TypeOrderFacts(items);
    NoneLeft(IsType(t), items);
  }

  /** Groups the candidates by type, ranks each group and keeps its best. */
  method CapPerType(items: seq<Item>) returns (result: seq<Item>)
    ensures result == Capped(items)
  {
    var byType: map<string, seq<Item>> := map[];
    var order: seq<string> := [];
    var i := 0;
    while i < |items|
      invariant 0 <= i <= |items|
      invariant order == TypeOrder(items[..i])
      invariant byType.Keys == set t | t in order
      invariant forall t :: t in byType ==> byType[t] == OfType(items[..i], t)
    {
      var it := items[i];
      TakeNext(items, i);
      TypeOrderFacts(items[..i]);
      if it.typ !in byType {
        NoneOfType(items[..i], it.typ);
        order := order + [it.typ];
        byType := byType[it.typ := [it]];
      } else {
        byType := byType[it.typ := byType[it.typ] + [it]];
      }
      i := i + 1;
    }
    assert items[..i] == items;
    result := [];
    i := 0;
    while i < |order|
      invariant 0 <= i <= |order|
      invariant result == Tops(items, order[..i])
    {
      var group := S.Sort(RanksBefore, byType[order[i]]);
      TakeNext(order, i);
      result := result + group[..Min(TypeCap(order[i]), |group|)];
      i := i + 1;
    }
    assert order[..i] == order;
  }

  lemma TopMembers(items: seq<Item>, t: string)
    ensures forall x :: x in Top(items, t) ==> x in items && x.typ == t
    ensures |Top(items, t)| <= TypeCap(t)
  {
    forall x | x in Top(items, t) ensures x in items && x.typ == t {
      assert x in Ranked(items, t);
      S.SortMembers(RanksBefore, OfType(items, t), x);
    }
  }

  lemma TopOfType(items: seq<Item>, u: string, t: string)
    ensures OfType(Top(items, u), t) == if u == t then Top(items, u) else []
  {
    TopMembers(items, u);
    if u == t {
      S.FilterAll(IsType(t), Top(items, u));
    } else {
      NoneLeft(IsType(t), Top(items, u));
    }
  }

  lemma OfTypeConcat(a: seq<Item>, b: seq<Item>, t: string)
    ensures OfType(a + b, t) == OfType(a, t) + OfType(b, t)
  {
    S.FilterConcat(IsType(t), a, b);
  }

  lemma LastTypeIsNew(order: seq<string>)
    requires DistinctTypes(order) && |order| > 0
    ensures order[|order| - 1] !in order[..|order| - 1]
  {
  }

  lemma {:induction false} TopsOfType(items: seq<Item>, order: seq<string>, t: string)
    requires DistinctTypes(order)
    ensures OfType(Tops(items, order), t) == if t in order then Top(items, t) else []
    decreases |order|
  {
    if |order| == 0 {
      assert Tops(items, order) == [];
    } else {
      var init, u := order[..|order| - 1], order[|order| - 1];
      TopsOfType(items, init, t);
      LastTypeIsNew(order);
      assert t in order <==> t in init || t == u by { assert order == init + [u]; }
      var a, b := Tops(items, init), Top(items, u);
      assert Tops(items, order) == a + b;
      OfTypeConcat(a, b, t);
      TopOfType(items, u, t);
    }
  }

  /** Of every type the cap keeps exactly the best `min(cap, n)`, in rank order. */
  lemma CappedOfType(items: seq<Item>, t: string)
    ensures OfType(Capped(items), t) == Top(items, t)
  {
    TypeOrderFacts(items);
    TopsOfType(items, TypeOrder(items), t);
    if t !in TypeOrder(items) { NoneOfType(items, t); }
  }

  lemma {:induction false} TopAndDropped(items: seq<Item>, t: string)
    ensures multiset(Top(items, t)) + multiset(BelowCap(items, t)) == multiset(OfType(items, t))
    ensures |Top(items, t)| == Min(TypeCap(t), |OfType(items, t)|)
  {
    S.SortMultiset(RanksBefore, OfType(items, t));
    assert Ranked(items, t) == Top(items, t) + BelowCap(items, t);
  }

  lemma CountTwice(s: seq<Item>, i: nat, j: nat)
    requires i < j < |s| && s[i] == s[j]
    ensures multiset(s)[s[i]] >= 2
  {
    assert s == s[..j] + [s[j]] + s[j + 1..];
    assert s[i] in s[..j];
  }

  lemma LastIsNew(s: seq<Item>)
    requires DistinctKeys(s) && |s| > 0
    ensures s[|s| - 1] !in s[..|s| - 1]
  {
    var last := s[|s| - 1];
    forall k | 0 <= k < |s| - 1 ensures s[k] != last {
      assert s[k].typ != last.typ || s[k].id != last.id;
    }
  }

  lemma {:induction false} CountOnce(s: seq<Item>, x: Item)
    requires DistinctKeys(s)
    ensures multiset(s)[x] <= 1
    decreases |s|
  {
    if |s| > 0 {
      var init, last := s[..|s| - 1], s[|s| - 1];
      CountOnce(init, x);
      assert s == init + [last];
      LastIsNew(s);
      assert last == x ==> x !in multiset(init);
    }
  }

  lemma RankedDistinct(items: seq<Item>, t: string)
    requires DistinctKeys(items)
    ensures forall i, j :: 0 <= i < j < |Ranked(items, t)| ==> Ranked(items, t)[i] != Ranked(items, t)[j]
  {
    var r := Ranked(items, t);
    forall i, j | 0 <= i < j < |r| ensures r[i] != r[j] {
      if r[i] == r[j] {
        CountTwice(r, i, j);
        S.SortMultiset(RanksBefore, OfType(items, t));
        S.FilterCount(IsType(t), items, r[i]);
        CountOnce(items, r[i]);
      }
    }
  }

  lemma RankedInOrder(items: seq<Item>, t: string, i: nat, j: nat)
    requires DistinctKeys(items) && i < j < |Ranked(items, t)|
    ensures RanksBefore(Ranked(items, t)[i], Ranked(items, t)[j])
  {
    var r := Ranked(items, t);
    RanksIsStrictWeakOrder();
    S.SortSorted(RanksBefore, OfType(items, t));
    RankIsTotalWithinType(items, t);
    RankedDistinct(items, t);
    S.SortMembers(RanksBefore, OfType(items, t), r[i]);
    S.SortMembers(RanksBefore, OfType(items, t), r[j]);
    assert !RanksBefore(r[j], r[i]) && r[i] != r[j];
  }

  lemma {:induction false} TopBeforeDropped(items: seq<Item>, t: string, x: Item, y: Item)
    requires DistinctKeys(items) && x in Top(items, t) && y in BelowCap(items, t)
    ensures RanksBefore(x, y)
  {
    var r, top, low := Ranked(items, t), Top(items, t), BelowCap(items, t);
    var i :| 0 <= i < |top| && top[i] == x;
    var j :| 0 <= j < |low| && low[j] == y;
    assert r[i] == x && r[|top| + j] == y;
    RankedInOrder(items, t, i, |top| + j);
  }

  /** Kept and dropped items of a type make up all of them, and every dropped
      one ranks below every kept one. */
  lemma {:induction false} KeptOutrankDropped(items: seq<Item>, t: string)
    requires DistinctKeys(items)
    ensures multiset(Top(items, t)) + multiset(BelowCap(items, t)) == multiset(OfType(items, t))
    ensures |Top(items, t)| == Share(t, |OfType(items, t)|)
    ensures forall x, y :: x in Top(items, t) && y in BelowCap(items, t) ==> Outranks(x, y)
  {
    TopAndDropped(items, t);
    TypeCapIsLimit();
    forall x, y | x in Top(items, t) && y in BelowCap(items, t) ensures Outranks(x, y) {
      TopBeforeDropped(items, t, x, y);
    }
  }

  /** The order of the candidates does not decide what is kept. */
  lemma CapIgnoresInputOrder(a: seq<Item>, b: seq<Item>)
    requires multiset(a) == multiset(b) && DistinctKeys(a)
    ensures multiset(Capped(a)) == multiset(Capped(b))
    ensures forall t :: OfType(Capped(a), t) == OfType(Capped(b), t)
  {
    RanksIsStrictWeakOrder();
    SameByType(a, b);
    forall t ensures OfType(Capped(a), t) == OfType(Capped(b), t) {
      CappedOfType(a, t);
      CappedOfType(b, t);
      RankIsTotalWithinType(a, t);
      assert multiset(OfType(a, t)) == multiset(OfType(b, t));
      S.SortPermutation(RanksBefore, OfType(a, t), OfType(b, t));
    }
    SameByType(Capped(a), Capped(b));
  }

  lemma SameKeySameItem(items: seq<Item>, x: Item, y: Item)
    requires DistinctKeys(items) && x in items && y in items && x.typ == y.typ && x.id == y.id
    ensures x == y
  {
    var i :| 0 <= i < |items| && items[i] == x;
    var j :| 0 <= j < |items| && items[j] == y;
  }

  lemma TopCount(items: seq<Item>, t: string, x: Item)
    requires DistinctKeys(items)
    ensures multiset(Top(items, t))[x] <= 1
  {
    var r := Ranked(items, t);
    var k := Min(TypeCap(t), |r|);
    S.SortMultiset(RanksBefore, OfType(items, t));
    assert r == r[..k] + r[k..];
    S.FilterCount(IsType(t), items, x);
    CountOnce(items, x);
  }

  lemma CapKeepsDistinctKeys(items: seq<Item>)
    requires DistinctKeys(items)
    ensures DistinctKeys(Capped(items))
    ensures forall x :: x in Capped(items) ==> x in items
  {
    var c := Capped(items);
    forall x | x in c ensures x in items {
      CappedOfType(items, x.typ);
      TopMembers(items, x.typ);
      assert x in OfType(c, x.typ);
    }
    forall i, j | 0 <= i < j < |c| ensures c[i].typ != c[j].typ || c[i].id != c[j].id {
      if c[i].typ == c[j].typ && c[i].id == c[j].id {
        SameKeySameItem(items, c[i], c[j]);
        CountTwice(c, i, j);
        CappedOfType(items, c[i].typ);
        S.FilterCount(IsType(c[i].typ), c, c[i]);
        TopCount(items, c[i].typ, c[i]);
      }
    }
  }
}

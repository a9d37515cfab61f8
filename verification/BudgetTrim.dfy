/** The budget cut: a greedy prefix of the ranked items, plus every pinned one. */
module BudgetTrim {
  import opened PackItems
  import opened TypeCaps
  import S = StableSort

  datatype Omitted = Omitted(typ: string, count: nat, reason: string)

  const REASON_BUDGET := "budget"

  predicate IsPinned(it: Item) {
    it.typ == TYPE_TASK || it.typ == TYPE_PROJECT
  }

  predicate NotPinned(it: Item) {
    !IsPinned(it)
  }

  /** Total summary length in Unicode code points. */
  function RuneSum(items: seq<Item>): nat {
    if |items| == 0 then 0 else RuneSum(items[..|items| - 1]) + |items[|items| - 1].summary|
  }

  /** Where non-pinned inclusion stops: the first non-pinned item at which the
      running total passes the budget, or the end. */
  ghost predicate IsCut(items: seq<Item>, budget: int, c: nat) {
    && c <= |items|
    && (forall i :: 0 <= i < c && NotPinned(items[i]) ==> RuneSum(items[..i + 1]) <= budget)
    && (c < |items| ==> NotPinned(items[c]) && RuneSum(items[..c + 1]) > budget)
  }

  function Cut(items: seq<Item>, budget: int): (c: nat)
    ensures c <= |items|
  {
    if |items| == 0 then 0
    else
      var c := Cut(items[..|items| - 1], budget);
      if c < |items| - 1 then c
      else if NotPinned(items[|items| - 1]) && RuneSum(items) > budget then c
      else |items|
  }

  function Kept(items: seq<Item>, budget: int): seq<Item> {
    items[..Cut(items, budget)] + S.Filter(IsPinned, items[Cut(items, budget)..])
  }

  function Dropped(items: seq<Item>, budget: int): seq<Item> {
    S.Filter(NotPinned, items[Cut(items, budget)..])
  }

  lemma {:induction false} CutIsCut(items: seq<Item>, budget: int)
    ensures IsCut(items, budget, Cut(items, budget))
    decreases |items|
  {
    if |items| > 0 {
      var init := items[..|items| - 1];
      CutIsCut(init, budget);
      var c := Cut(items, budget);
      assert items[..|items|] == items;
      forall i | 0 <= i < c && NotPinned(items[i]) ensures RuneSum(items[..i + 1]) <= budget {
        if i < |items| - 1 {
          assert init[i] == items[i] && init[..i + 1] == items[..i + 1];
        }
      }
      if c < |items| - 1 {
        assert init[c] == items[c] && init[..c + 1] == items[..c + 1];
      }
    }
  }

  /** The cut is the only index with its description. */
  lemma CutIsUnique(items: seq<Item>, budget: int, c: nat)
    requires IsCut(items, budget, c)
    ensures c == Cut(items, budget)
  {
    CutIsCut(items, budget);
    var d := Cut(items, budget);
  }

  /** One more item: what the cut, the kept and the dropped items become. */
  lemma {:induction false} CutPush(items: seq<Item>, x: Item, budget: int)
    ensures var stopped := Cut(items, budget) < |items|;
            var fits := RuneSum(items) + |x.summary| <= budget;
            Cut(items + [x], budget) == if stopped || (NotPinned(x) && !fits) then Cut(items, budget) else |items| + 1
  {
    assert (items + [x])[..|items|] == items;
  }

  lemma {:induction false} PushAfterCut(items: seq<Item>, x: Item, budget: int)
    requires Cut(items + [x], budget) == Cut(items, budget)
    ensures Kept(items + [x], budget) == Kept(items, budget) + (if IsPinned(x) then [x] else [])
    ensures Dropped(items + [x], budget) == Dropped(items, budget) + (if IsPinned(x) then [] else [x])
  {
    var c := Cut(items, budget);
    var tail := items[c..];
    assert (items + [x])[c..] == tail + [x] && (items + [x])[..c] == items[..c];
    S.FilterPush(IsPinned, tail, x);
    S.FilterPush(NotPinned, tail, x);
  }

  lemma {:induction false} NothingDroppedYet(items: seq<Item>, budget: int)
    requires Cut(items, budget) == |items|
    ensures Kept(items, budget) == items && Dropped(items, budget) == []
  {
    assert items[|items|..] == [] && items[..|items|] == items;
  }

  lemma {:induction false} RuneSumPush(items: seq<Item>, x: Item)
    ensures RuneSum(items + [x]) == RuneSum(items) + |x.summary|
  {
    assert (items + [x])[..|items|] == items;
  }

  lemma {:induction false} StepFacts(items: seq<Item>, x: Item, budget: int)
    ensures RuneSum(items + [x]) == RuneSum(items) + |x.summary|
    ensures var stopped := Cut(items, budget) < |items|;
            var keep := IsPinned(x) || (!stopped && RuneSum(items) + |x.summary| <= budget);
            && Kept(items + [x], budget) == Kept(items, budget) + (if keep then [x] else [])
            && Dropped(items + [x], budget) == Dropped(items, budget) + (if keep then [] else [x])
            && (Cut(items + [x], budget) < |items| + 1 <==> stopped || !keep)
  {
    RuneSumPush(items, x);
    CutPush(items, x, budget);
    if Cut(items + [x], budget) == Cut(items, budget) {
      PushAfterCut(items, x, budget);
    } else {
      NothingDroppedYet(items, budget);
      NothingDroppedYet(items + [x], budget);
    }
  }

  /** One turn of the walk; `seen` are the items already walked. */
  method WalkStep(ghost seen: seq<Item>, it: Item, budgetChars: int, kept0: seq<Item>, dropped0: seq<Item>, total0: nat,
                  stopped0: bool)
    returns (kept: seq<Item>, dropped: seq<Item>, total: nat, stopped: bool)
    requires kept0 == Kept(seen, budgetChars) && dropped0 == Dropped(seen, budgetChars)
    requires stopped0 <==> Cut(seen, budgetChars) < |seen|
    requires !stopped0 ==> total0 == RuneSum(seen)
    ensures kept == Kept(seen + [it], budgetChars) && dropped == Dropped(seen + [it], budgetChars)
    ensures stopped <==> Cut(seen + [it], budgetChars) < |seen| + 1
    ensures !stopped ==> total == RuneSum(seen + [it])
  {
    kept, dropped, total, stopped := kept0, dropped0, total0, stopped0;
    var length := |it.summary|;
    StepFacts(seen, it, budgetChars);
    if IsPinned(it) {
      kept := kept + [it];
      total := total + length;
    } else if stopped {
      dropped := dropped + [it];
    } else {
      var next := total + length;
      if next > budgetChars {
        stopped := true;
        dropped := dropped + [it];
      } else {
        total := next;
        kept := kept + [it];
      }
    }
  }

  /** Walks the ranked items once. */
  method Walk(items: seq<Item>, budgetChars: int) returns (kept: seq<Item>, dropped: seq<Item>)
    ensures kept == Kept(items, budgetChars) && dropped == Dropped(items, budgetChars)
  {
    var total, stopped := 0, false;
    kept, dropped := [], [];
    var i := 0;
    while i < |items|
      invariant 0 <= i <= |items|
      invariant kept == Kept(items[..i], budgetChars) && dropped == Dropped(items[..i], budgetChars)
      invariant stopped <==> Cut(items[..i], budgetChars) < i
      invariant !stopped ==> total == RuneSum(items[..i])
    {
      assert items[..i + 1] == items[..i] + [items[i]];
      kept, dropped, total, stopped := WalkStep(items[..i], items[i], budgetChars, kept, dropped, total, stopped);
      i := i + 1;
    }
    assert items[..i] == items;
  }

  /** One record per dropped type, in the order the types were first dropped. */
  function Omissions(dropped: seq<Item>): (r: seq<Omitted>)
    ensures |r| == |TypeOrder(dropped)|
    ensures forall i :: 0 <= i < |r| ==>
              r[i] == Omitted(TypeOrder(dropped)[i], |OfType(dropped, TypeOrder(dropped)[i])|, REASON_BUDGET)
  {
    seq(|TypeOrder(dropped)|, i requires 0 <= i < |TypeOrder(dropped)| =>
      Omitted(TypeOrder(dropped)[i], |OfType(dropped, TypeOrder(dropped)[i])|, REASON_BUDGET))
  }

  method CountDropped(dropped: seq<Item>) returns (counts: map<string, nat>, order: seq<string>)
    ensures order == TypeOrder(dropped)
    ensures counts.Keys == set t | t in order
    ensures forall t :: t in counts ==> counts[t] == |OfType(dropped, t)|
  {
    counts, order := map[], [];
    var i := 0;
    while i < |dropped|
      invariant 0 <= i <= |dropped|
      invariant order == TypeOrder(dropped[..i])
      invariant counts.Keys == set t | t in order
      invariant forall t :: t in counts ==> counts[t] == |OfType(dropped[..i], t)|
    {
      var it := dropped[i];
      assert dropped[..i + 1][..i] == dropped[..i] && dropped[..i + 1][i] == it;
      if it.typ !in counts {
        NoneOfType(dropped[..i], it.typ);
        order := order + [it.typ];
        counts := counts[it.typ := 1];
      } else {
        counts := counts[it.typ := counts[it.typ] + 1];
      }
      i := i + 1;
    }
    assert dropped[..i] == dropped;
  }

  method TrimToBudget(items: seq<Item>, budgetChars: int) returns (kept: seq<Item>, omitted: seq<Omitted>)
    ensures kept == Kept(items, budgetChars)
    ensures omitted == Omissions(Dropped(items, budgetChars))
  {
    var dropped;
    kept, dropped := Walk(items, budgetChars);
    var counts, order := CountDropped(dropped);
    omitted := [];
    var i := 0;
    while i < |order|
      invariant 0 <= i <= |order|
      invariant omitted == Omissions(dropped)[..i]
    {
      assert order[i] in counts;
      omitted := omitted + [Omitted(order[i], counts[order[i]], REASON_BUDGET)];
      i := i + 1;
    }
    assert Omissions(dropped)[..i] == Omissions(dropped);
  }

  lemma {:induction false} PinnedStay(head: seq<Item>, tail: seq<Item>)
    ensures S.Filter(IsPinned, head + S.Filter(IsPinned, tail)) == S.Filter(IsPinned, head + tail)
  {
    var p := S.Filter(IsPinned, tail);
    S.FilterConcat(IsPinned, head, tail);
    S.FilterConcat(IsPinned, head, p);
    S.FilterAll(IsPinned, p);
  }

  lemma {:induction false} OthersOfHead(head: seq<Item>, tail: seq<Item>)
    ensures S.Filter(NotPinned, head + S.Filter(IsPinned, tail)) == S.Filter(NotPinned, head)
  {
    var p := S.Filter(IsPinned, tail);
    S.FilterConcat(NotPinned, head, p);
    NoneLeft(NotPinned, p);
  }

  /** All pinned items survive in their order; the surviving others are a prefix
      of the others, and the rest is exactly what was dropped. */
  lemma {:induction false} PinnedAllOthersPrefix(items: seq<Item>, budget: int)
    ensures S.Filter(IsPinned, Kept(items, budget)) == S.Filter(IsPinned, items)
    ensures S.Filter(NotPinned, items) == S.Filter(NotPinned, Kept(items, budget)) + Dropped(items, budget)
  {
    var head, tail := items[..Cut(items, budget)], items[Cut(items, budget)..];
    assert items == head + tail;
    PinnedStay(head, tail);
    OthersOfHead(head, tail);
    S.FilterConcat(NotPinned, head, tail);
  }

  lemma {:induction false} RuneSumFilter(p: Item -> bool, s: seq<Item>)
    ensures RuneSum(S.Filter(p, s)) <= RuneSum(s)
    decreases |s|
  {
    if |s| > 0 {
      var init := s[..|s| - 1];
      RuneSumFilter(p, init);
      if p(s[|s| - 1]) { RuneSumPush(S.Filter(p, init), s[|s| - 1]); }
    }
  }

  lemma {:induction false} PrefixFits(items: seq<Item>, c: nat, budget: int)
    requires c <= |items| && S.Filter(NotPinned, items[..c]) != []
    requires forall i :: 0 <= i < c && NotPinned(items[i]) ==> RuneSum(items[..i + 1]) <= budget
    ensures RuneSum(S.Filter(NotPinned, items[..c])) <= budget
    decreases c
  {
    assert items[..c][..c - 1] == items[..c - 1];
    if NotPinned(items[c - 1]) {
      assert items[..c - 1 + 1] == items[..c];
      RuneSumFilter(NotPinned, items[..c]);
    } else {
      PrefixFits(items, c - 1, budget);
    }
  }

  /** The surviving others fit the budget, even counted with everything ranked
      above the last of them. */
  lemma {:induction false} OthersFit(items: seq<Item>, budget: int)
    requires S.Filter(NotPinned, Kept(items, budget)) != []
    ensures RuneSum(S.Filter(NotPinned, Kept(items, budget))) <= budget
  {
    var c := Cut(items, budget);
    CutIsCut(items, budget);
    OthersOfHead(items[..c], items[c..]);
    PrefixFits(items, c, budget);
  }

  lemma {:induction false} FilterHead(p: Item -> bool, s: seq<Item>)
    requires |s| > 0 && p(s[0])
    ensures S.Filter(p, s) != [] && S.Filter(p, s)[0] == s[0]
    decreases |s|
  {
    if |s| > 1 { FilterHead(p, s[..|s| - 1]); }
  }

  lemma {:induction false} NothingLeft(items: seq<Item>, budget: int)
    ensures Dropped(items, budget) != [] ==> Cut(items, budget) < |items|
  {
    if Cut(items, budget) == |items| { NothingDroppedYet(items, budget); }
  }

  /** The first dropped item really does not fit behind what is kept above it. */
  lemma {:induction false} FirstDroppedDoesNotFit(items: seq<Item>, budget: int)
    requires Dropped(items, budget) != []
    ensures var c := Cut(items, budget);
            && c < |items| && Dropped(items, budget)[0] == items[c]
            && items[..c] <= Kept(items, budget)
            && RuneSum(items[..c]) + |items[c].summary| > budget
  {
    var c := Cut(items, budget);
    CutIsCut(items, budget);
    NothingLeft(items, budget);
    FilterHead(NotPinned, items[c..]);
    assert items[..c + 1] == items[..c] + [items[c]];
    RuneSumPush(items[..c], items[c]);
  }

  lemma {:induction false} SplitCost(s: seq<Item>)
    ensures RuneSum(s) == RuneSum(S.Filter(IsPinned, s)) + RuneSum(S.Filter(NotPinned, s))
    decreases |s|
  {
    if |s| > 0 {
      var init, x := s[..|s| - 1], s[|s| - 1];
      SplitCost(init);
      if IsPinned(x) { RuneSumPush(S.Filter(IsPinned, init), x); } else { RuneSumPush(S.Filter(NotPinned, init), x); }
    }
  }

  /** What is kept costs at most the budget plus the pinned items. */
  lemma {:induction false} KeptCost(items: seq<Item>, budget: nat)
    ensures RuneSum(Kept(items, budget)) <= budget + RuneSum(S.Filter(IsPinned, items))
  {
    PinnedAllOthersPrefix(items, budget);
    SplitCost(Kept(items, budget));
    if S.Filter(NotPinned, Kept(items, budget)) != [] { OthersFit(items, budget); }
  }

  lemma {:induction false} FilterBoth(s: seq<Item>)
    ensures multiset(S.Filter(IsPinned, s)) + multiset(S.Filter(NotPinned, s)) == multiset(s)
    decreases |s|
  {
    if |s| > 0 {
      FilterBoth(s[..|s| - 1]);
      assert s == s[..|s| - 1] + [s[|s| - 1]];
    }
  }

  /** Nothing is invented and nothing vanishes. */
  lemma {:induction false} KeptAndDropped(items: seq<Item>, budget: int)
    ensures multiset(Kept(items, budget)) + multiset(Dropped(items, budget)) == multiset(items)
    ensures |Kept(items, budget)| + |Dropped(items, budget)| == |items|
  {
    var c := Cut(items, budget);
    FilterBoth(items[c..]);
    assert items == items[..c] + items[c..];
    assert |multiset(Kept(items, budget)) + multiset(Dropped(items, budget))| == |multiset(items)|;
  }

  /** A bigger budget only moves the cut down the list. */
  lemma {:induction false} CutIsMonotone(items: seq<Item>, small: int, large: int)
    requires small <= large
    ensures Cut(items, small) <= Cut(items, large)
  {
    CutIsCut(items, small);
    CutIsCut(items, large);
    var c := Cut(items, large);
  }

  lemma PrefixByTail(a: seq<Item>, m: seq<Item>, b: seq<Item>, tail: seq<Item>)
    requires a + (m + tail) == b + tail
    ensures a <= b
  {
    assert |b| == |a| + |m|;
    forall i | 0 <= i < |a| ensures a[i] == b[i] {
      assert (a + (m + tail))[i] == a[i] && (b + tail)[i] == b[i];
    }
  }

  /** Raising the budget never removes a kept item. */
  lemma {:induction false} BudgetIsMonotone(items: seq<Item>, small: int, large: int)
    requires small <= large
    ensures multiset(Kept(items, small)) <= multiset(Kept(items, large))
    ensures S.Filter(NotPinned, Kept(items, small)) <= S.Filter(NotPinned, Kept(items, large))
  {
    CutIsMonotone(items, small, large);
    var c, d := Cut(items, small), Cut(items, large);
    var middle := items[c..d];
    assert items[c..] == middle + items[d..];
    assert items[..d] == items[..c] + middle;
    S.FilterConcat(IsPinned, middle, items[d..]);
    S.FilterConcat(NotPinned, middle, items[d..]);
    FilterBoth(middle);
    PinnedAllOthersPrefix(items, small);
    PinnedAllOthersPrefix(items, large);
    assert Dropped(items, small) == S.Filter(NotPinned, middle) + Dropped(items, large);
    PrefixByTail(S.Filter(NotPinned, Kept(items, small)), S.Filter(NotPinned, middle),
      S.Filter(NotPinned, Kept(items, large)), Dropped(items, large));
  }

  function TotalOmitted(omitted: seq<Omitted>): nat {
    if |omitted| == 0 then 0 else TotalOmitted(omitted[..|omitted| - 1]) + omitted[|omitted| - 1].count
  }

  function CountIn(dropped: seq<Item>, order: seq<string>): nat {
    if |order| == 0 then 0 else CountIn(dropped, order[..|order| - 1]) + |OfType(dropped, order[|order| - 1])|
  }

  lemma {:induction false} SameCounts(dropped: seq<Item>, r: seq<Omitted>, order: seq<string>)
    requires |r| == |order| && forall i :: 0 <= i < |r| ==> r[i].count == |OfType(dropped, order[i])|
    ensures TotalOmitted(r) == CountIn(dropped, order)
    decreases |r|
  {
    if |r| > 0 { SameCounts(dropped, r[..|r| - 1], order[..|order| - 1]); }
  }

  lemma {:induction false} CountEmpty(order: seq<string>)
    ensures CountIn([], order) == 0
    decreases |order|
  {
    if |order| > 0 { CountEmpty(order[..|order| - 1]); }
  }

  lemma {:induction false} CountOneMore(init: seq<Item>, x: Item, order: seq<string>)
    requires DistinctTypes(order)
    ensures CountIn(init + [x], order) == CountIn(init, order) + (if x.typ in order then 1 else 0)
    decreases |order|
  {
    if |order| > 0 {
      var os, t := order[..|order| - 1], order[|order| - 1];
      CountOneMore(init, x, os);
      S.FilterPush(IsType(t), init, x);
      assert order == os + [t];
    }
  }

  lemma {:induction false} CountsAddUp(dropped: seq<Item>, order: seq<string>)
    requires DistinctTypes(order) && forall x :: x in dropped ==> x.typ in order
    ensures CountIn(dropped, order) == |dropped|
    decreases |dropped|
  {
    if |dropped| == 0 {
      CountEmpty(order);
    } else {
      var init, x := dropped[..|dropped| - 1], dropped[|dropped| - 1];
      assert dropped == init + [x];
      CountsAddUp(init, order);
      CountOneMore(init, x, order);
      assert x in dropped;
    }
  }

  /** The omission records have distinct types and exact, positive counts that
      add up to the number of dropped items. */
  lemma {:induction false} OmissionsAreExact(dropped: seq<Item>)
    ensures forall i, j :: 0 <= i < j < |Omissions(dropped)| ==> Omissions(dropped)[i].typ != Omissions(dropped)[j].typ
    ensures forall o :: o in Omissions(dropped) ==> o.count == |OfType(dropped, o.typ)| > 0
    ensures forall x :: x in dropped ==> exists o :: o in Omissions(dropped) && o.typ == x.typ
    ensures TotalOmitted(Omissions(dropped)) == |dropped|
  {
    var r := Omissions(dropped);
    TypeOrderFacts(dropped);
    forall o | o in r ensures o.count == |OfType(dropped, o.typ)| > 0 {
      assert o.typ in TypeOrder(dropped);
      var x :| x in dropped && x.typ == o.typ;
      assert x in OfType(dropped, o.typ);
    }
    forall x | x in dropped ensures exists o :: o in r && o.typ == x.typ {
      assert x.typ in TypeOrder(dropped);
      var i :| 0 <= i < |r| && TypeOrder(dropped)[i] == x.typ;
      assert r[i] in r;
    }
    CountsAddUp(dropped, TypeOrder(dropped));
    SameCounts(dropped, r, TypeOrder(dropped));
  }
}

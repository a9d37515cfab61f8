/** The whole pipeline: retrieve, score, cap, sort, trim. */
module PackAssembler {
  import opened Ids
  import opened PackItems
  import opened TypeCaps
  import opened BudgetTrim
  import opened Retrieval
  import opened Seqs
  import S = StableSort

  const DEFAULT_BUDGET_CHARS := 12000

  datatype Pack = Pack(budgetChars: int, usedChars: nat, items: seq<Item>, warnings: seq<string>, omitted: seq<Omitted>)

  function Budget(req: Request): nat {
    if req.budgetChars <= 0 then DEFAULT_BUDGET_CHARS else req.budgetChars
  }

  function WithScore(it: Item, req: Request): Item {
    it.(score := TotalWeight(Reasons(it, req)), reasons := Reasons(it, req))
  }

  function ScoreAll(items: seq<Item>, req: Request): (r: seq<Item>)
    ensures |r| == |items|
    ensures forall i :: 0 <= i < |items| ==> r[i] == WithScore(items[i], req)
  {
    seq(|items|, i requires 0 <= i < |items| => WithScore(items[i], req))
  }

  function Ordered(candidates: seq<Item>): seq<Item> {
    S.Sort(ScoresAbove, Capped(candidates))
  }

  method ScoreInPlace(a: array<Item>, req: Request)
    modifies a
    ensures a[..] == ScoreAll(old(a[..]), req)
  {
    var i := 0;
    while i < a.Length
      invariant 0 <= i <= a.Length
      invariant forall k :: 0 <= k < i ==> a[k] == WithScore(old(a[k]), req)
      invariant forall k :: i <= k < a.Length ==> a[k] == old(a[k])
    {
      var total, reasons := Score(a[i], req);
      a[i] := a[i].(score := total, reasons := reasons);
      i := i + 1;
    }
  }

  method SumRunes(items: seq<Item>) returns (usedChars: nat)
    ensures usedChars == RuneSum(items)
  {
    usedChars := 0;
    var i := 0;
    while i < |items|
      invariant 0 <= i <= |items|
      invariant usedChars == RuneSum(items[..i])
    {
      assert items[..i + 1][..i] == items[..i];
      usedChars := usedChars + |items[i].summary|;
      i := i + 1;
    }
    assert items[..i] == items;
  }

  method RankAndCap(items: seq<Item>, req: Request) returns (ordered: seq<Item>)
    ensures ordered == Ordered(ScoreAll(items, req))
  {
    var a := new Item[|items|](i requires 0 <= i < |items| => items[i]);
    assert a[..] == items;
    ScoreInPlace(a, req);
    var capped := CapPerType(a[..]);
    var b := new Item[|capped|](i requires 0 <= i < |capped| => capped[i]);
    assert b[..] == capped;
    S.SortInPlace(b, ScoresAbove);
    ordered := b[..];
  }

  function Candidates(p: Ports, req: Request, wanted: Option<set<string>>): seq<Item> {
    ScoreAll(Retrieved(p, req, wanted), req)
  }

  /** The context pack for a request, given what the stores answer. */
  function PackOf(p: Ports, req: Request, wanted: Option<set<string>>): Pack {
    var ordered := Ordered(Candidates(p, req, wanted));
    var kept := Kept(ordered, Budget(req));
    Pack(Budget(req), RuneSum(kept), kept, Warnings(Calls(p, req, wanted)), Omissions(Dropped(ordered, Budget(req))))
  }

  /** If the lookup found a usable row, an item of it is among `items`. */
  ghost predicate Present(l: Lookup, typ: string, items: seq<Item>) {
    l.Found? && l.row.id.Some? && !l.row.archived ==>
      exists x :: x in items && x.typ == typ && x.id == l.row.id.value
  }

  /** The scored candidates: an item for every usable row the stores answer. */
  ghost predicate AreCandidates(p: Ports, req: Request, found: seq<Item>) {
    && DistinctKeys(found) && AllAnswersIn(p, req, found) && OnlyAnswersIn(p, req, found)
    && forall x :: x in found ==> x.score == ScoreOf(x, req) && forall r :: r in x.reasons <==> Gives(x, req, r)
  }

  /** An item that is left out ranks below every one of its type that is not. */
  ghost predicate BestKept(found: seq<Item>, items: seq<Item>) {
    forall x, y :: x in found && x !in items && y in items && x.typ == y.typ ==> Outranks(y, x)
  }

  /** Of every type what the pack holds and what its budget left out make up the
      limit, or all there are. */
  ghost predicate AddsUp(found: seq<Item>, items: seq<Item>, omitted: seq<Omitted>) {
    && (forall i, j :: 0 <= i < j < |omitted| ==> omitted[i].typ != omitted[j].typ)
    && (forall o :: o in omitted ==>
         && o.reason == "budget" && o.count > 0 && o.typ != "task" && o.typ != "project"
         && |OfType(items, o.typ)| + o.count == Share(o.typ, |OfType(found, o.typ)|))
    && (forall t :: (forall o :: o in omitted ==> o.typ != t) ==>
         |OfType(items, t)| == Share(t, |OfType(found, t)|))
  }

  ghost function OthersChars(items: seq<Item>): nat {
    if |items| == 0 then 0
    else
      var x := items[|items| - 1];
      OthersChars(items[..|items| - 1]) + if x.typ == "task" || x.typ == "project" then 0 else |x.summary|
  }

  /** `x` does not fit behind the first `n` items, which score no less, and only the
      caller's tasks and projects stand after those. */
  ghost predicate NoRoomFor(found: seq<Item>, items: seq<Item>, budget: nat, n: nat, x: Item) {
    && n <= |items| && x in found && x !in items && x.typ != "task" && x.typ != "project"
    && (forall k :: 0 <= k < n ==> items[k].score >= x.score)
    && (forall k :: n <= k < |items| ==> items[k].typ == "task" || items[k].typ == "project")
    && RuneSum(items[..n]) + |x.summary| > budget
  }

  /** Some candidate that is left out has no room. */
  ghost predicate NoRoomForNext(found: seq<Item>, items: seq<Item>, budget: nat) {
    exists n: nat, x :: NoRoomFor(found, items, budget, n, x)
  }

  /** What a caller may rely on, whatever the stores answered; `found` are the
      candidates. */
  ghost predicate GoodPack(p: Ports, req: Request, found: seq<Item>, pack: Pack) {
    && (forall i, j :: 0 <= i < j < |pack.items| ==> pack.items[i].score >= pack.items[j].score)
    && DistinctKeys(pack.items) && (forall x :: x in pack.items ==> x in found)
    && BestKept(found, pack.items) && AddsUp(found, pack.items, pack.omitted)
    && pack.budgetChars == (if req.budgetChars <= 0 then 12000 else req.budgetChars)
    && pack.usedChars == RuneSum(pack.items) && OthersChars(pack.items) <= pack.budgetChars
    && (pack.omitted != [] ==> NoRoomForNext(found, pack.items, pack.budgetChars))
    && (forall w :: w in pack.warnings <==> Fails(p, req, w))
    && (req.taskID.Some? ==> Present(p.taskByID(req.taskID.value), "task", pack.items))
    && (req.projectID.Some? ==> Present(p.projectByID(req.projectID.value), "project", pack.items))
  }

  lemma {:induction false} DistinctKeysOfPart(part: seq<Item>, whole: seq<Item>)
    requires multiset(part) <= multiset(whole) && DistinctKeys(whole)
    ensures DistinctKeys(part)
  {
    forall i, j | 0 <= i < j < |part| && part[i].typ == part[j].typ && part[i].id == part[j].id ensures false {
      assert part[i] in multiset(part) && part[j] in multiset(part);
      assert part[i] in multiset(whole) && part[j] in multiset(whole);
      SameKeySameItem(whole, part[i], part[j]);
      CountTwice(part, i, j);
      CountOnce(whole, part[i]);
    }
  }

  lemma {:induction false} FilterSorted(p: Item -> bool, s: seq<Item>)
    requires S.Sorted(ScoresAbove, s)
    ensures S.Sorted(ScoresAbove, S.Filter(p, s))
    decreases |s|
  {
    if |s| > 0 {
      var init, x := s[..|s| - 1], s[|s| - 1];
      FilterSorted(p, init);
      var f := S.Filter(p, init);
      forall i | 0 <= i < |f| ensures !ScoresAbove(x, f[i]) {
        assert f[i] in f;
        var k :| 0 <= k < |init| && init[k] == f[i];
        assert s[k] == f[i];
      }
    }
  }

  /** Trimming keeps the ranking. */
  lemma {:induction false} KeptSorted(s: seq<Item>, budget: int)
    requires S.Sorted(ScoresAbove, s)
    ensures S.Sorted(ScoresAbove, Kept(s, budget))
  {
    var c := Cut(s, budget);
    var tail := S.Filter(IsPinned, s[c..]);
    FilterSorted(IsPinned, s[c..]);
    forall i, j | 0 <= i < c && 0 <= j < |tail| ensures !ScoresAbove(tail[j], s[i]) {
      assert tail[j] in tail;
      var k :| 0 <= k < |s[c..]| && s[c..][k] == tail[j];
      assert s[c + k] == tail[j];
    }
  }

  lemma {:induction false} OrderedFacts(candidates: seq<Item>)
    requires DistinctKeys(candidates)
    ensures S.Sorted(ScoresAbove, Ordered(candidates))
    ensures multiset(Ordered(candidates)) == multiset(Capped(candidates))
    ensures |Ordered(candidates)| == |Capped(candidates)|
    ensures DistinctKeys(Ordered(candidates))
  {
    ScoresIsStrictWeakOrder();
    S.SortSorted(ScoresAbove, Capped(candidates));
    S.SortMultiset(ScoresAbove, Capped(candidates));
    CapKeepsDistinctKeys(candidates);
    DistinctKeysOfPart(Ordered(candidates), Capped(candidates));
  }

  lemma {:induction false} ScoreAllKeys(items: seq<Item>, req: Request)
    requires DistinctKeys(items)
    ensures DistinctKeys(ScoreAll(items, req))
  {
  }

  /** The only call of its type, answered by one row, gives the only item of its type. */
  lemma {:induction false} AloneOfItsType(calls: seq<Call>, call: Call, row: Row)
    requires call.reply == Rows([row]) && Usable(row) && call in calls
    requires forall c :: c in calls && c.typ == call.typ ==> c == call
    ensures forall x :: x in Dedupe(ItemsOfCalls(calls)) && x.typ == call.typ ==> x == ItemFrom(call.typ, row)
    ensures ItemFrom(call.typ, row) in Dedupe(ItemsOfCalls(calls))
  {
    var all := ItemsOfCalls(calls);
    var own := ItemFrom(call.typ, row);
    forall x | x in Dedupe(all) && x.typ == call.typ ensures x == own {
      ItemOrigin(calls, x);
      RowOrigin(call.typ, [row], x);
    }
    RowOrigin(call.typ, [row], own);
    assert row in [row];
    CallOrigin(calls, own);
    DedupeFacts(all);
    assert HasKeyOf(Dedupe(all), own);
  }

  /** A type that does not fill its cap loses nothing to it. */
  lemma {:induction false} UnderCapAllStay(items: seq<Item>, x: Item)
    requires x in items && |OfType(items, x.typ)| <= TypeCap(x.typ)
    ensures x in Capped(items)
  {
    CappedOfType(items, x.typ);
    assert x in OfType(items, x.typ);
    S.SortMembers(RanksBefore, OfType(items, x.typ), x);
    assert Top(items, x.typ) == Ranked(items, x.typ);
    assert x in OfType(Capped(items), x.typ);
  }

  lemma {:induction false} TwoDiffer(s: seq<Item>)
    requires DistinctKeys(s) && |s| > 1
    ensures s[0] in s && s[1] in s && s[0] != s[1]
  {
  }

  lemma {:induction false} AtMostOne(s: seq<Item>, y: Item)
    requires DistinctKeys(s) && forall x :: x in s ==> x == y
    ensures |s| <= 1
  {
    if |s| > 1 { TwoDiffer(s); }
  }

  lemma {:induction false} FewerDistinct(items: seq<Item>, t: string)
    requires DistinctKeys(items)
    ensures DistinctKeys(OfType(items, t))
  {
    forall x ensures multiset(OfType(items, t))[x] <= multiset(items)[x] {
      S.FilterCount(IsType(t), items, x);
    }
    DistinctKeysOfPart(OfType(items, t), items);
  }

  lemma {:induction false} OnlyOneOfType(items: seq<Item>, x: Item)
    requires DistinctKeys(items) && x in items && forall y :: y in items && y.typ == x.typ ==> y == x
    ensures |OfType(items, x.typ)| <= 1
  {
    FewerDistinct(items, x.typ);
    AtMostOne(OfType(items, x.typ), x);
  }

  /** A pinned item alone of its type survives cap, sort and trim. */
  lemma {:induction false} LonePinnedSurvives(candidates: seq<Item>, x: Item, budget: int)
    requires DistinctKeys(candidates) && x in candidates && IsPinned(x)
    requires forall y :: y in candidates && y.typ == x.typ ==> y == x
    ensures x in Kept(Ordered(candidates), budget)
  {
    OnlyOneOfType(candidates, x);
    UnderCapAllStay(candidates, x);
    S.SortMembers(ScoresAbove, Capped(candidates), x);
    PinnedAllOthersPrefix(Ordered(candidates), budget);
    assert x in S.Filter(IsPinned, Ordered(candidates));
    assert x in S.Filter(IsPinned, Kept(Ordered(candidates), budget));
  }

  lemma {:induction false} LookupIsPresent(calls: seq<Call>, req: Request, call: Call, l: Lookup, budget: int)
    requires call.reply == AsReply(l) && call in calls
    requires call.typ == TYPE_TASK || call.typ == TYPE_PROJECT
    requires forall c :: c in calls && c.typ == call.typ ==> c == call
    ensures Present(l, call.typ, Kept(Ordered(ScoreAll(Dedupe(ItemsOfCalls(calls)), req)), budget))
  {
    if l.Found? && Usable(l.row) {
      var own, items := ItemFrom(call.typ, l.row), Dedupe(ItemsOfCalls(calls));
      AloneOfItsType(calls, call, l.row);
      DedupeFacts(ItemsOfCalls(calls));
      var candidates := ScoreAll(items, req);
      ScoreAllKeys(items, req);
      var k :| 0 <= k < |items| && items[k] == own;
      assert candidates[k] == WithScore(own, req) && candidates[k] in candidates;
      forall y | y in candidates && y.typ == call.typ ensures y == WithScore(own, req) {
        var j :| 0 <= j < |items| && candidates[j] == y;
        assert items[j] in items;
      }
      LonePinnedSurvives(candidates, WithScore(own, req), budget);
    }
  }

  lemma DecisionCallsType(p: Ports, req: Request, c: Call)
    requires c in DecisionCalls(p, req)
    ensures c.typ == TYPE_DECISION
  {
  }

  /** Every gated source yields one type, and never a task or a project. */
  lemma SourceTypes(p: Ports, req: Request, i: nat, c: Call)
    requires i < |GatedSources(p, req)| && c in GatedSources(p, req)[i].calls
    ensures c.typ == GatedSources(p, req)[i].typ
    ensures c.typ != TYPE_TASK && c.typ != TYPE_PROJECT
  {
    if i == 0 { DecisionCallsType(p, req, c); }
  }

  lemma {:induction false} CallTypes(p: Ports, req: Request, wanted: Option<set<string>>, c: Call)
    requires c in Calls(p, req, wanted)
    ensures c in TaskCalls(p, req) || c in ProjectCalls(p, req) || c in SessionCalls(p, req)
            || (Allowed(wanted, c.typ) && c.typ != TYPE_TASK && c.typ != TYPE_PROJECT)
  {
    if c !in CurrentCalls(p, req) {
      GatedMembers(GatedSources(p, req), wanted, c);
      var i :| 0 <= i < |GatedSources(p, req)| && Allowed(wanted, GatedSources(p, req)[i].typ)
        && c in GatedSources(p, req)[i].calls;
      SourceTypes(p, req, i, c);
    }
  }

  lemma {:induction false} OnlyTaskCall(p: Ports, req: Request, wanted: Option<set<string>>)
    requires req.taskID.Some?
    ensures TaskCalls(p, req)[0] in Calls(p, req, wanted)
    ensures forall c :: c in Calls(p, req, wanted) && c.typ == TYPE_TASK ==> c == TaskCalls(p, req)[0]
  {
    assert TaskCalls(p, req)[0] in CurrentCalls(p, req);
    forall c | c in Calls(p, req, wanted) && c.typ == TYPE_TASK ensures c == TaskCalls(p, req)[0] {
      CallTypes(p, req, wanted, c);
    }
  }

  lemma {:induction false} OnlyProjectCall(p: Ports, req: Request, wanted: Option<set<string>>)
    requires req.projectID.Some?
    ensures ProjectCalls(p, req)[0] in Calls(p, req, wanted)
    ensures forall c :: c in Calls(p, req, wanted) && c.typ == TYPE_PROJECT ==> c == ProjectCalls(p, req)[0]
  {
    assert ProjectCalls(p, req)[0] in CurrentCalls(p, req);
    forall c | c in Calls(p, req, wanted) && c.typ == TYPE_PROJECT ensures c == ProjectCalls(p, req)[0] {
      CallTypes(p, req, wanted, c);
    }
  }

  lemma {:induction false} CurrentIsPresent(p: Ports, req: Request, wanted: Option<set<string>>, budget: int)
    ensures req.taskID.Some? ==>
              Present(p.taskByID(req.taskID.value), TYPE_TASK, Kept(Ordered(Candidates(p, req, wanted)), budget))
    ensures req.projectID.Some? ==>
              Present(p.projectByID(req.projectID.value), TYPE_PROJECT,
                Kept(Ordered(Candidates(p, req, wanted)), budget))
  {
    if req.taskID.Some? {
      var call := TaskCalls(p, req)[0];
      OnlyTaskCall(p, req, wanted);
      LookupIsPresent(Calls(p, req, wanted), req, call, p.taskByID(req.taskID.value), budget);
    }
    if req.projectID.Some? {
      var call := ProjectCalls(p, req)[0];
      OnlyProjectCall(p, req, wanted);
      LookupIsPresent(Calls(p, req, wanted), req, call, p.projectByID(req.projectID.value), budget);
    }
  }

  /** The final sort is stable, so the items of one type keep their rank order
      (ties by id) even though it only compares scores. */
  lemma {:induction false} TypesStayRanked(candidates: seq<Item>, t: string)
    ensures OfType(Ordered(candidates), t) == Top(candidates, t)
  {
    CappedOfType(candidates, t);
    var top, r := Top(candidates, t), Ranked(candidates, t);
    RanksIsStrictWeakOrder();
    S.SortSorted(RanksBefore, OfType(candidates, t));
    forall i, j | 0 <= i < j < |top| ensures !ScoresAbove(top[j], top[i]) {
      assert top[i] == r[i] && top[j] == r[j];
      assert !RanksBefore(r[j], r[i]);
    }
    S.SortKeepsOrderedPart(ScoresAbove, IsType(t), Capped(candidates));
  }

  lemma {:induction false} KeptIsPart(s: seq<Item>, budget: int)
    ensures multiset(Kept(s, budget)) <= multiset(s)
  {
    KeptAndDropped(s, budget);
  }

  lemma {:induction false} OmittedAreNotPinned(dropped: seq<Item>, o: Omitted)
    requires (forall x :: x in dropped ==> NotPinned(x)) && o in Omissions(dropped)
    ensures !(o.typ == TYPE_TASK || o.typ == TYPE_PROJECT)
  {
    TypeOrderFacts(dropped);
    assert o.typ in TypeOrder(dropped);
    var x :| x in dropped && x.typ == o.typ;
  }

  /** Scoring changes neither the key nor where an item comes from. */
  lemma ScoredItem(p: Ports, req: Request, it: Item)
    ensures var x := WithScore(it, req);
            && x.typ == it.typ && x.id == it.id
            && x.score == ScoreOf(x, req) && (forall r :: r in x.reasons <==> Gives(x, req, r))
            && forall row :: IsItemOf(x, x.typ, row) <==> IsItemOf(it, it.typ, row)
  {
    WeightIsScore(it, req);
    ReasonsAreGiven(it, req);
    forall r ensures Gives(WithScore(it, req), req, r) <==> Gives(it, req, r) {}
  }

  lemma {:induction false} ScoredAnswersIn(p: Ports, req: Request, items: seq<Item>)
    requires AllAnswersIn(p, req, items)
    ensures AllAnswersIn(p, req, ScoreAll(items, req))
  {
    var found := ScoreAll(items, req);
    forall typ, row | Answers(p, req, typ, row) && row.id.Some? && !row.archived
      ensures exists x :: x in found && x.typ == typ && x.id == row.id.value
    {
      var x :| x in items && x.typ == typ && x.id == row.id.value;
      var k :| 0 <= k < |items| && items[k] == x;
      assert found[k] in found;
    }
  }

  lemma {:induction false} ScoredOnlyAnswers(p: Ports, req: Request, items: seq<Item>, x: Item)
    requires OnlyAnswersIn(p, req, items) && x in ScoreAll(items, req)
    ensures exists row :: Answers(p, req, x.typ, row) && IsItemOf(x, x.typ, row)
    ensures x.score == ScoreOf(x, req) && forall r :: r in x.reasons <==> Gives(x, req, r)
  {
    var found := ScoreAll(items, req);
    var k :| 0 <= k < |found| && found[k] == x;
    assert items[k] in items;
    ScoredItem(p, req, items[k]);
    var row :| Answers(p, req, items[k].typ, row) && IsItemOf(items[k], items[k].typ, row);
    assert IsItemOf(x, x.typ, row);
  }

  lemma {:induction false} CandidatesAreFound(p: Ports, req: Request)
    ensures AreCandidates(p, req, Candidates(p, req, IncludeOf(req.includeTypes)))
  {
    var items := Retrieved(p, req, IncludeOf(req.includeTypes));
    var found := ScoreAll(items, req);
    RetrievedIsAnswered(p, req);
    ScoreAllKeys(items, req);
    ScoredAnswersIn(p, req, items);
    forall x | x in found
      ensures exists row :: Answers(p, req, x.typ, row) && IsItemOf(x, x.typ, row)
      ensures x.score == ScoreOf(x, req) && forall r :: r in x.reasons <==> Gives(x, req, r)
    {
      ScoredOnlyAnswers(p, req, items, x);
    }
  }

  /** Items of a type that is not pinned are all among the others. */
  lemma {:induction false} OthersOfType(s: seq<Item>, t: string)
    requires t != TYPE_TASK && t != TYPE_PROJECT
    ensures OfType(S.Filter(NotPinned, s), t) == OfType(s, t)
    decreases |s|
  {
    if |s| > 0 {
      var init, x := s[..|s| - 1], s[|s| - 1];
      OthersOfType(init, t);
      S.FilterPush(IsType(t), S.Filter(NotPinned, init), x);
    }
  }

  /** Among those of one type the budget keeps a leading part. */
  lemma {:induction false} KeptOfType(candidates: seq<Item>, budget: int, t: string)
    requires t != TYPE_TASK && t != TYPE_PROJECT
    ensures Top(candidates, t) ==
            OfType(Kept(Ordered(candidates), budget), t) + OfType(Dropped(Ordered(candidates), budget), t)
  {
    var s := Ordered(candidates);
    TypesStayRanked(candidates, t);
    PinnedAllOthersPrefix(s, budget);
    OthersOfType(s, t);
    OthersOfType(Kept(s, budget), t);
    OfTypeConcat(S.Filter(NotPinned, Kept(s, budget)), Dropped(s, budget), t);
  }

  lemma {:induction false} TopInOrder(candidates: seq<Item>, t: string, i: nat, j: nat)
    requires DistinctKeys(candidates) && i < j < |Top(candidates, t)|
    ensures Outranks(Top(candidates, t)[i], Top(candidates, t)[j])
  {
    RankedInOrder(candidates, t, i, j);
  }

  lemma InOnePart(a: seq<Item>, b: seq<Item>, whole: seq<Item>, x: Item)
    requires multiset(a) + multiset(b) == multiset(whole) && x in whole
    ensures x in a || x in b
  {
    assert x in multiset(whole);
  }

  /** A kept item is among the best of its type; one that is left out is below
      the cap or was dropped for the budget. */
  lemma {:induction false} WhereItemsGo(candidates: seq<Item>, budget: int, x: Item)
    requires x in candidates
    ensures x in Top(candidates, x.typ) || x in BelowCap(candidates, x.typ)
    ensures x in Top(candidates, x.typ) ==>
              x in Kept(Ordered(candidates), budget) || x in Dropped(Ordered(candidates), budget)
  {
    var s, t := Ordered(candidates), x.typ;
    TopAndDropped(candidates, t);
    InOnePart(Top(candidates, t), BelowCap(candidates, t), OfType(candidates, t), x);
    if x in Top(candidates, t) {
      TypesStayRanked(candidates, t);
      KeptAndDropped(s, budget);
      InOnePart(Kept(s, budget), Dropped(s, budget), s, x);
    }
  }

  lemma {:induction false} KeptIsTop(candidates: seq<Item>, budget: int, y: Item)
    requires y in Kept(Ordered(candidates), budget)
    ensures y in Top(candidates, y.typ) && y in OfType(Kept(Ordered(candidates), budget), y.typ)
  {
    var s := Ordered(candidates);
    KeptIsPart(s, budget);
    TypesStayRanked(candidates, y.typ);
    assert y in multiset(Kept(s, budget)) && y in multiset(s) && y in OfType(s, y.typ);
  }

  lemma {:induction false} DroppedRanksLower(candidates: seq<Item>, budget: int, x: Item, y: Item)
    requires DistinctKeys(candidates) && x in Dropped(Ordered(candidates), budget) && x.typ == y.typ
    requires y in OfType(Kept(Ordered(candidates), budget), y.typ)
    ensures Outranks(y, x)
  {
    var s, t := Ordered(candidates), x.typ;
    var kept, dropped := OfType(Kept(s, budget), t), OfType(Dropped(s, budget), t);
    assert NotPinned(x) && x in dropped;
    KeptOfType(candidates, budget, t);
    var i, k := PartsInOrder(kept, dropped, y, x);
    TopInOrder(candidates, t, i, k);
  }

  lemma {:induction false} LeftOutRanksLower(candidates: seq<Item>, budget: int, x: Item, y: Item)
    requires DistinctKeys(candidates) && x in candidates && x.typ == y.typ
    requires x !in Kept(Ordered(candidates), budget) && y in Kept(Ordered(candidates), budget)
    ensures Outranks(y, x)
  {
    WhereItemsGo(candidates, budget, x);
    KeptIsTop(candidates, budget, y);
    if x in BelowCap(candidates, x.typ) {
      KeptOutrankDropped(candidates, x.typ);
    } else {
      DroppedRanksLower(candidates, budget, x, y);
    }
  }

  lemma {:induction false} BestAreKept(candidates: seq<Item>, budget: int)
    requires DistinctKeys(candidates)
    ensures BestKept(candidates, Kept(Ordered(candidates), budget))
  {
    var items := Kept(Ordered(candidates), budget);
    forall x, y | x in candidates && x !in items && y in items && x.typ == y.typ ensures Outranks(y, x) {
      LeftOutRanksLower(candidates, budget, x, y);
    }
  }

  lemma {:induction false} TypeAddsUp(candidates: seq<Item>, budget: int, t: string)
    requires DistinctKeys(candidates)
    ensures |OfType(Kept(Ordered(candidates), budget), t)| + |OfType(Dropped(Ordered(candidates), budget), t)| ==
            Share(t, |OfType(candidates, t)|)
  {
    var s := Ordered(candidates);
    var kept, dropped := OfType(Kept(s, budget), t), OfType(Dropped(s, budget), t);
    KeptAndDropped(s, budget);
    KeptOutrankDropped(candidates, t);
    TypesStayRanked(candidates, t);
    forall x ensures multiset(kept)[x] + multiset(dropped)[x] == multiset(OfType(s, t))[x] {
      S.FilterCount(IsType(t), s, x);
      S.FilterCount(IsType(t), Kept(s, budget), x);
      S.FilterCount(IsType(t), Dropped(s, budget), x);
      assert multiset(Kept(s, budget))[x] + multiset(Dropped(s, budget))[x] == multiset(s)[x];
    }
    assert multiset(kept) + multiset(dropped) == multiset(OfType(s, t));
    assert |kept| + |dropped| == |multiset(kept) + multiset(dropped)|;
  }

  lemma {:induction false} PackAddsUp(candidates: seq<Item>, budget: int)
    requires DistinctKeys(candidates)
    ensures AddsUp(candidates, Kept(Ordered(candidates), budget), Omissions(Dropped(Ordered(candidates), budget)))
  {
    var dropped := Dropped(Ordered(candidates), budget);
    var omitted := Omissions(dropped);
    OmissionsAreExact(dropped);
    forall o | o in omitted
      ensures o.reason == "budget" && o.typ != "task" && o.typ != "project"
      ensures |OfType(Kept(Ordered(candidates), budget), o.typ)| + o.count ==
              Share(o.typ, |OfType(candidates, o.typ)|)
    {
      OmittedAreNotPinned(dropped, o);
      TypeAddsUp(candidates, budget, o.typ);
    }
    forall t | forall o :: o in omitted ==> o.typ != t
      ensures |OfType(Kept(Ordered(candidates), budget), t)| == Share(t, |OfType(candidates, t)|)
    {
      NoneLeft(IsType(t), dropped);
      TypeAddsUp(candidates, budget, t);
    }
  }

  lemma {:induction false} OthersCharsIs(items: seq<Item>)
    ensures OthersChars(items) == RuneSum(S.Filter(NotPinned, items))
    decreases |items|
  {
    if |items| > 0 {
      var init, x := items[..|items| - 1], items[|items| - 1];
      OthersCharsIs(init);
      RuneSumPush(S.Filter(NotPinned, init), x);
    }
  }

  /** A dropped item is not also kept. */
  lemma {:induction false} LeftOutOnce(s: seq<Item>, budget: nat, x: Item)
    requires DistinctKeys(s) && x in Dropped(s, budget)
    ensures x !in Kept(s, budget) && NotPinned(x)
  {
    KeptAndDropped(s, budget);
    CountOnce(s, x);
    assert multiset(s)[x] == multiset(Kept(s, budget))[x] + multiset(Dropped(s, budget))[x];
    assert x in multiset(Dropped(s, budget)) && (x in Kept(s, budget) <==> x in multiset(Kept(s, budget)));
  }

  lemma {:induction false} NextHasNoRoom(candidates: seq<Item>, budget: nat)
    requires DistinctKeys(candidates)
    ensures Dropped(Ordered(candidates), budget) != [] ==>
              NoRoomForNext(candidates, Kept(Ordered(candidates), budget), budget)
  {
    var s := Ordered(candidates);
    if Dropped(s, budget) != [] {
      var c := Cut(s, budget);
      var kept, x := Kept(s, budget), s[c];
      OrderedFacts(candidates);
      FirstDroppedDoesNotFit(s, budget);
      LeftOutOnce(s, budget, x);
      CapKeepsDistinctKeys(candidates);
      assert x in multiset(Capped(candidates));
      forall k | 0 <= k < c ensures kept[k].score >= x.score { assert kept[k] == s[k] && !ScoresAbove(s[c], s[k]); }
      forall k | c <= k < |kept| ensures kept[k].typ == "task" || kept[k].typ == "project" {
        assert kept[k] in S.Filter(IsPinned, s[c..]);
      }
      assert kept[..c] == s[..c];
      assert NoRoomFor(candidates, kept, budget, c, x);
    }
  }

  lemma {:induction false} PackIsSorted(candidates: seq<Item>, budget: int)
    requires DistinctKeys(candidates)
    ensures var items := Kept(Ordered(candidates), budget);
            && (forall i, j :: 0 <= i < j < |items| ==> items[i].score >= items[j].score)
            && DistinctKeys(items) && forall x :: x in items ==> x in candidates
  {
    var items := Kept(Ordered(candidates), budget);
    OrderedFacts(candidates);
    KeptSorted(Ordered(candidates), budget);
    KeptIsPart(Ordered(candidates), budget);
    DistinctKeysOfPart(items, Ordered(candidates));
    CapKeepsDistinctKeys(candidates);
    forall i, j | 0 <= i < j < |items| ensures items[i].score >= items[j].score {
      assert !ScoresAbove(items[j], items[i]);
    }
    forall x | x in items ensures x in candidates {
      assert x in multiset(items) && x in multiset(Ordered(candidates)) && x in multiset(Capped(candidates));
    }
  }

  lemma {:induction false} OthersAreCheap(items: seq<Item>, budget: nat)
    ensures OthersChars(Kept(items, budget)) <= budget
  {
    OthersCharsIs(Kept(items, budget));
    if S.Filter(NotPinned, Kept(items, budget)) != [] { OthersFit(items, budget); }
  }

  lemma {:induction false} PackIsGood(p: Ports, req: Request)
    ensures var found := Candidates(p, req, IncludeOf(req.includeTypes));
            AreCandidates(p, req, found) && GoodPack(p, req, found, PackOf(p, req, IncludeOf(req.includeTypes)))
  {
    var wanted, budget := IncludeOf(req.includeTypes), Budget(req);
    var candidates := Candidates(p, req, wanted);
    CandidatesAreFound(p, req);
    RetrievedIsAnswered(p, req);
    PackIsSorted(candidates, budget);
    BestAreKept(candidates, budget);
    PackAddsUp(candidates, budget);
    OthersAreCheap(Ordered(candidates), budget);
    NextHasNoRoom(candidates, budget);
    CurrentIsPresent(p, req, wanted, budget);
  }

  /** The whole pipeline, stated of the candidates `found`: an item for every
      usable row that the stores the request makes applicable answer with. */
  method Assemble(p: Ports, req: Request) returns (pack: Pack, ghost found: seq<Item>)
    ensures pack == PackOf(p, req, IncludeOf(req.includeTypes))
    ensures AreCandidates(p, req, found) && GoodPack(p, req, found, pack)
  {
    var budget := req.budgetChars;
    if budget <= 0 {
      budget := DEFAULT_BUDGET_CHARS;
    }
    var items, warnings := Retrieve(p, req);
    var ordered := RankAndCap(items, req);
    var kept, omitted := TrimToBudget(ordered, budget);
    var usedChars := SumRunes(kept);
    pack := Pack(budget, usedChars, kept, warnings, omitted);
    found := Candidates(p, req, IncludeOf(req.includeTypes));
    PackIsGood(p, req);
  }
}

/** Context-pack items, their types and their relevance score. */
module PackItems {
  import opened Ids
  import opened Ordering
  import S = StableSort

  const TYPE_TASK := "task"
  const TYPE_PROJECT := "project"
  const TYPE_DECISION := "decision"
  const TYPE_KNOWLEDGE := "knowledge"
  const TYPE_ATOM := "atom"
  const TYPE_PROCEDURE := "procedure"
  const TYPE_SKILL := "skill"
  const TYPE_OUTCOME := "outcome"
  const TYPE_REFLECTION := "reflection"
  const TYPE_RULE := "rule"
  const TYPE_SESSION := "session"

  /** What an item's provenance says, empty text standing for an absent key.
      The flags are the verdicts of the store and of the text matchers. */
  datatype Prov = Prov(repoName: string, projectID: string, taskID: string,
                       recent: bool, proven: bool, failure: bool, sharesFile: bool, keyword: bool)

  /** The reasons a score is made of; each stands for one fixed English phrase. */
  datatype Reason = MatchesContext | SharesTouchedFile | KeywordMatch | Recent | ProvenTrackRecord | PastFailure
    | LoggedDecision

  /** Scores are in hundredths. */
  datatype Item = Item(typ: string, id: Uuid, summary: string, score: nat, reasons: seq<Reason>, prov: Prov)

  datatype Request = Request(repoName: string, projectID: Option<Uuid>, taskID: Option<Uuid>, budgetChars: int,
                             includeTypes: seq<string>)

  predicate MatchesRepoProjectTask(prov: Prov, req: Request) {
    || (prov.repoName != "" && req.repoName != "" && prov.repoName == req.repoName)
    || (req.projectID.Some? && prov.projectID == req.projectID.value)
    || (req.taskID.Some? && prov.taskID == req.taskID.value)
  }

  function Weight(reason: Reason): nat {
    match reason
    case MatchesContext => 30
    case SharesTouchedFile => 20
    case KeywordMatch => 20
    case Recent => 10
    case ProvenTrackRecord => 10
    case PastFailure => 15
    case LoggedDecision => 15
  }

  predicate Holds(reason: Reason, item: Item, req: Request) {
    match reason
    case MatchesContext => MatchesRepoProjectTask(item.prov, req)
    case SharesTouchedFile => item.prov.sharesFile
    case KeywordMatch => item.prov.keyword
    case Recent => item.prov.recent
    case ProvenTrackRecord => item.prov.proven
    case PastFailure => item.typ == TYPE_OUTCOME && item.prov.failure
    case LoggedDecision => item.typ == TYPE_DECISION
  }

  function TotalWeight(reasons: seq<Reason>): nat {
    if |reasons| == 0 then 0 else TotalWeight(reasons[..|reasons| - 1]) + Weight(reasons[|reasons| - 1])
  }

  /** The signals in the order the scorer looks at them. */
  const SIGNALS := [MatchesContext, SharesTouchedFile, KeywordMatch, Recent, ProvenTrackRecord, PastFailure,
    LoggedDecision]

  function HoldsFor(item: Item, req: Request): Reason -> bool {
    (r: Reason) => Holds(r, item, req)
  }

  function Reasons(item: Item, req: Request): seq<Reason> {
    S.Filter(HoldsFor(item, req), SIGNALS)
  }

  method Add(total: nat, reasons: seq<Reason>, weight: nat, reason: Reason)
    returns (newTotal: nat, newReasons: seq<Reason>)
    requires total == TotalWeight(reasons) && weight == Weight(reason)
    ensures newReasons == reasons + [reason]
    ensures newTotal == TotalWeight(newReasons)
  {
    newTotal, newReasons := total + weight, reasons + [reason];
    assert newReasons[..|newReasons| - 1] == reasons;
  }

  function FirstReasons(item: Item, req: Request, k: nat): seq<Reason>
    requires k <= |SIGNALS|
  {
    S.Filter(HoldsFor(item, req), SIGNALS[..k])
  }

  lemma NoSignalsYet(item: Item, req: Request)
    ensures FirstReasons(item, req, 0) == []
  {
    assert SIGNALS[..0] == [];
  }

  lemma NextSignal(item: Item, req: Request, k: nat, reason: Reason)
    requires k < |SIGNALS| && SIGNALS[k] == reason
    ensures FirstReasons(item, req, k + 1) == FirstReasons(item, req, k)
              + (if Holds(reason, item, req) then [reason] else [])
  {
    S.FilterPush(HoldsFor(item, req), SIGNALS[..k], SIGNALS[k]);
    assert SIGNALS[..k + 1] == SIGNALS[..k] + [SIGNALS[k]];
  }

  method ScoreContext(item: Item, req: Request) returns (total: nat, reasons: seq<Reason>)
    ensures reasons == FirstReasons(item, req, 3) && total == TotalWeight(reasons)
  {
    total, reasons := 0, [];
    NoSignalsYet(item, req);
    NextSignal(item, req, 0, MatchesContext);
    if MatchesRepoProjectTask(item.prov, req) { total, reasons := Add(total, reasons, 30, MatchesContext); }
    assert reasons == FirstReasons(item, req, 1);
    NextSignal(item, req, 1, SharesTouchedFile);
    if item.prov.sharesFile { total, reasons := Add(total, reasons, 20, SharesTouchedFile); }
    assert reasons == FirstReasons(item, req, 2);
    NextSignal(item, req, 2, KeywordMatch);
    if item.prov.keyword { total, reasons := Add(total, reasons, 20, KeywordMatch); }
  }

  method ScoreRecord(item: Item, req: Request, total0: nat, reasons0: seq<Reason>)
    returns (total: nat, reasons: seq<Reason>)
    requires reasons0 == FirstReasons(item, req, 3) && total0 == TotalWeight(reasons0)
    ensures reasons == FirstReasons(item, req, 5) && total == TotalWeight(reasons)
  {
    total, reasons := total0, reasons0;
    NextSignal(item, req, 3, Recent);
    NextSignal(item, req, 4, ProvenTrackRecord);
    if item.prov.recent { total, reasons := Add(total, reasons, 10, Recent); }
    if item.prov.proven { total, reasons := Add(total, reasons, 10, ProvenTrackRecord); }
  }

  method ScoreKind(item: Item, req: Request, total0: nat, reasons0: seq<Reason>)
    returns (total: nat, reasons: seq<Reason>)
    requires reasons0 == FirstReasons(item, req, 5) && total0 == TotalWeight(reasons0)
    ensures reasons == FirstReasons(item, req, 7) && total == TotalWeight(reasons)
  {
    total, reasons := total0, reasons0;
    NextSignal(item, req, 5, PastFailure);
    NextSignal(item, req, 6, LoggedDecision);
    if item.typ == TYPE_OUTCOME && item.prov.failure { total, reasons := Add(total, reasons, 15, PastFailure); }
    if item.typ == TYPE_DECISION { total, reasons := Add(total, reasons, 15, LoggedDecision); }
  }

  /** The row belongs to what the caller works on; absent never matches absent. */
  ghost predicate SameContext(item: Item, req: Request) {
    || (item.prov.repoName != "" && item.prov.repoName == req.repoName)
    || (req.projectID.Some? && item.prov.projectID == req.projectID.value)
    || (req.taskID.Some? && item.prov.taskID == req.taskID.value)
  }

  /** The score in hundredths, by the columns. */
  ghost function ScoreOf(item: Item, req: Request): nat {
    (if SameContext(item, req) then 30 else 0)
    + (if item.prov.sharesFile then 20 else 0) + (if item.prov.keyword then 20 else 0)
    + (if item.prov.recent then 10 else 0) + (if item.prov.proven then 10 else 0)
    + (if item.typ == "outcome" && item.prov.failure then 15 else 0) + (if item.typ == "decision" then 15 else 0)
  }

  lemma NextWeight(item: Item, req: Request, k: nat, reason: Reason)
    requires k < |SIGNALS| && SIGNALS[k] == reason
    ensures TotalWeight(FirstReasons(item, req, k + 1)) ==
            TotalWeight(FirstReasons(item, req, k)) + (if Holds(reason, item, req) then Weight(reason) else 0)
  {
    NextSignal(item, req, k, reason);
    var was := FirstReasons(item, req, k);
    assert (was + [reason])[..|was|] == was && was + [] == was;
  }

  lemma ContextWeight(item: Item, req: Request)
    ensures TotalWeight(FirstReasons(item, req, 3)) ==
            (if SameContext(item, req) then 30 else 0)
            + (if item.prov.sharesFile then 20 else 0) + (if item.prov.keyword then 20 else 0)
  {
    NoSignalsYet(item, req);
    NextWeight(item, req, 0, MatchesContext);
    NextWeight(item, req, 1, SharesTouchedFile);
    NextWeight(item, req, 2, KeywordMatch);
  }

  lemma RecordWeight(item: Item, req: Request)
    ensures TotalWeight(FirstReasons(item, req, 5)) == TotalWeight(FirstReasons(item, req, 3))
            + (if item.prov.recent then 10 else 0) + (if item.prov.proven then 10 else 0)
  {
    NextWeight(item, req, 3, Recent);
    NextWeight(item, req, 4, ProvenTrackRecord);
  }

  lemma KindWeight(item: Item, req: Request)
    ensures TotalWeight(FirstReasons(item, req, 7)) == TotalWeight(FirstReasons(item, req, 5))
            + (if item.typ == "outcome" && item.prov.failure then 15 else 0)
            + (if item.typ == "decision" then 15 else 0)
  {
    NextWeight(item, req, 5, PastFailure);
    NextWeight(item, req, 6, LoggedDecision);
  }

  /** The weights of the reasons add up to the score by the columns. */
  lemma WeightIsScore(item: Item, req: Request)
    ensures TotalWeight(Reasons(item, req)) == ScoreOf(item, req)
  {
    ContextWeight(item, req);
    RecordWeight(item, req);
    KindWeight(item, req);
    assert SIGNALS[..7] == SIGNALS;
  }

  /** The reasons by the columns. */
  ghost predicate Gives(item: Item, req: Request, reason: Reason) {
    match reason
    case MatchesContext => SameContext(item, req)
    case SharesTouchedFile => item.prov.sharesFile
    case KeywordMatch => item.prov.keyword
    case Recent => item.prov.recent
    case ProvenTrackRecord => item.prov.proven
    case PastFailure => item.typ == "outcome" && item.prov.failure
    case LoggedDecision => item.typ == "decision"
  }

  lemma EverySignal(reason: Reason)
    ensures reason in SIGNALS
  {
    assert SIGNALS[0] == MatchesContext && SIGNALS[1] == SharesTouchedFile && SIGNALS[2] == KeywordMatch;
    assert SIGNALS[3] == Recent && SIGNALS[4] == ProvenTrackRecord && SIGNALS[5] == PastFailure;
    assert SIGNALS[6] == LoggedDecision;
  }

  lemma ReasonsAreGiven(item: Item, req: Request)
    ensures forall r :: r in Reasons(item, req) <==> Gives(item, req, r)
  {
    forall r ensures r in Reasons(item, req) <==> Gives(item, req, r) { EverySignal(r); }
  }

  /** Adds up the signals that hold; each contributes its weight and its reason. */
  method Score(item: Item, req: Request) returns (total: nat, reasons: seq<Reason>)
    ensures reasons == Reasons(item, req) && total == TotalWeight(reasons)
    ensures total == ScoreOf(item, req)
    ensures forall r :: r in reasons <==> Gives(item, req, r)
  {
    total, reasons := ScoreContext(item, req);
    total, reasons := ScoreRecord(item, req, total, reasons);
    total, reasons := ScoreKind(item, req, total, reasons);
    assert SIGNALS[..7] == SIGNALS;
    WeightIsScore(item, req);
    ReasonsAreGiven(item, req);
  }

  function TypeCap(t: string): nat {
    if t == TYPE_TASK || t == TYPE_PROJECT then 10
    else if t == TYPE_KNOWLEDGE || t == TYPE_ATOM || t == TYPE_DECISION || t == TYPE_RULE then 5
    else if t == TYPE_PROCEDURE || t == TYPE_SKILL || t == TYPE_OUTCOME then 3
    else if t == TYPE_REFLECTION || t == TYPE_SESSION then 2
    else 5
  }

  /** How many items of a type a pack may hold. */
  ghost function Limit(typ: string): nat {
    if typ in {"task", "project"} then 10
    else if typ in {"procedure", "skill", "outcome"} then 3
    else if typ in {"reflection", "session"} then 2
    else 5
  }

  /** How many of `n` items of a type a pack may hold. */
  ghost function Share(typ: string, n: nat): nat {
    if n < Limit(typ) then n else Limit(typ)
  }

  lemma TypeCapIsLimit()
    ensures forall t :: TypeCap(t) == Limit(t)
  {
  }

  /** Within a type: higher score first, then id text. */
  predicate RanksBefore(a: Item, b: Item) {
    a.score > b.score || (a.score == b.score && LexLess(a.id, b.id))
  }

  /** `a` has the higher score, or the same and the smaller id text. */
  ghost predicate Outranks(a: Item, b: Item) {
    a.score > b.score || (a.score == b.score && LexLess(a.id, b.id))
  }

  /** Across types: higher score first. */
  predicate ScoresAbove(a: Item, b: Item) {
    a.score > b.score
  }

  lemma RanksIsStrictWeakOrder()
    ensures S.StrictWeakOrder(RanksBefore)
  {
    forall x, y | RanksBefore(x, y) ensures !RanksBefore(y, x) {
      LexTrichotomy(x.id, y.id);
    }
    forall x, y, z | RanksBefore(x, z) ensures RanksBefore(x, y) || RanksBefore(y, z) {
      if x.score == y.score && y.score == z.score {
        LexTrichotomy(x.id, y.id);
        if LexLess(y.id, x.id) { LexTransitive(y.id, x.id, z.id); }
      }
    }
  }

  lemma ScoresIsStrictWeakOrder()
    ensures S.StrictWeakOrder(ScoresAbove)
  {
  }

  ghost predicate DistinctKeys(items: seq<Item>) {
    forall i, j :: 0 <= i < j < |items| ==> items[i].typ != items[j].typ || items[i].id != items[j].id
  }

  function IsType(t: string): Item -> bool {
    (x: Item) => x.typ == t
  }

  function OfType(items: seq<Item>, t: string): seq<Item> {
    S.Filter(IsType(t), items)
  }

  /** Rank has no ties among different items of one type. */
  lemma RankIsTotalWithinType(items: seq<Item>, t: string)
    requires DistinctKeys(items)
    ensures S.TotalOn(RanksBefore, OfType(items, t))
  {
    forall x, y | x in OfType(items, t) && y in OfType(items, t) && x != y
      ensures RanksBefore(x, y) || RanksBefore(y, x)
    {
      var i :| 0 <= i < |items| && items[i] == x;
      var j :| 0 <= j < |items| && items[j] == y;
      assert x.id != y.id;
      LexTrichotomy(x.id, y.id);
    }
  }

  /** Items agree as a whole exactly when they agree type by type. */
  lemma SameByType(a: seq<Item>, b: seq<Item>)
    ensures multiset(a) == multiset(b) <==> forall t :: multiset(OfType(a, t)) == multiset(OfType(b, t))
  {
    if multiset(a) == multiset(b) {
      forall t ensures multiset(OfType(a, t)) == multiset(OfType(b, t)) {
        forall x ensures multiset(OfType(a, t))[x] == multiset(OfType(b, t))[x] {
          S.FilterCount(IsType(t), a, x);
          S.FilterCount(IsType(t), b, x);
        }
      }
    }
    if forall t :: multiset(OfType(a, t)) == multiset(OfType(b, t)) {
      forall x ensures multiset(a)[x] == multiset(b)[x] {
        S.FilterCount(IsType(x.typ), a, x);
        S.FilterCount(IsType(x.typ), b, x);
        assert multiset(OfType(a, x.typ)) == multiset(OfType(b, x.typ));
      }
    }
  }
}

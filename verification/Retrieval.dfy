/** Gathering the candidates: which sources are asked, what a failing one
    costs, and the removal of repeats. */
module Retrieval {
  import opened Ids
  import opened PackItems
  import opened Seqs

  const MAX_SUMMARY_RUNES := 500

  /** A stored row on its way to becoming an item. Only skill rows can carry an
      id that does not parse, and only knowledge rows can be archived. */
  datatype Row = Row(id: Option<Uuid>, text: string, archived: bool, prov: Prov)

  /** What a store answers: rows, a plain "not found", or an error. */
  datatype Reply = Rows(rows: seq<Row>) | NotFound | Failed

  datatype Lookup = Found(row: Row) | Missing | Broken

  /** The read ports; queries that depend only on the request are given by their answer. */
  datatype Ports = Ports(
    scoped: bool,
    taskByID: Uuid -> Lookup, projectByID: Uuid -> Lookup, projectsByRepo: string -> Reply,
    activeSession: string -> Lookup,
    allDecisions: Reply, decisionsByRepo: string -> Reply, decisionsByProject: Uuid -> Reply,
    decisionsByTask: Uuid -> Reply,
    knowledge: Reply, atoms: Reply, procedures: Reply, skills: Reply, outcomes: Reply,
    reflections: Reply, rules: Reply, handoff: Lookup)

  /** One question put to one store, with its answer. */
  datatype Call = Call(source: string, typ: string, reply: Reply)

  function AsReply(l: Lookup): Reply {
    match l
    case Found(row) => Rows([row])
    case Missing => NotFound
    case Broken => Failed
  }

  function TruncateRunes(s: string, n: nat): string {
    if |s| <= n then s else s[..n]
  }

  predicate Usable(row: Row) {
    row.id.Some? && !row.archived
  }

  function ItemFrom(typ: string, row: Row): Item
    requires Usable(row)
  {
    Item(typ, row.id.value, TruncateRunes(row.text, MAX_SUMMARY_RUNES), 0, [], row.prov)
  }

  function ItemsOfRows(typ: string, rows: seq<Row>): seq<Item> {
    if |rows| == 0 then []
    else
      var init, row := ItemsOfRows(typ, rows[..|rows| - 1]), rows[|rows| - 1];
      if Usable(row) then init + [ItemFrom(typ, row)] else init
  }

  function ItemsOfCall(c: Call): seq<Item> {
    if c.reply.Rows? then ItemsOfRows(c.typ, c.reply.rows) else []
  }

  function ItemsOfCalls(calls: seq<Call>): seq<Item> {
    if |calls| == 0 then [] else ItemsOfCalls(calls[..|calls| - 1]) + ItemsOfCall(calls[|calls| - 1])
  }

  function WarningsOfCall(c: Call): seq<string> {
    if c.reply.Failed? then [c.source] else []
  }

  /** One warning per failed call, naming the source and nothing else. */
  function Warnings(calls: seq<Call>): seq<string> {
    if |calls| == 0 then [] else Warnings(calls[..|calls| - 1]) + WarningsOfCall(calls[|calls| - 1])
  }

  function TaskCalls(p: Ports, req: Request): seq<Call> {
    if req.taskID.Some? then [Call("gtd.GetTaskByID", TYPE_TASK, AsReply(p.taskByID(req.taskID.value)))] else []
  }

  function ProjectCalls(p: Ports, req: Request): seq<Call> {
    if req.projectID.Some? then [Call("gtd.GetProjectByID", TYPE_PROJECT, AsReply(p.projectByID(req.projectID.value)))]
    else if req.repoName != "" then [Call("gtd.ProjectsByRepoName", TYPE_PROJECT, p.projectsByRepo(req.repoName))]
    else []
  }

  function SessionCalls(p: Ports, req: Request): seq<Call> {
    if req.repoName != "" && p.scoped
    then [Call("workSession.GetActive", TYPE_SESSION, AsReply(p.activeSession(req.repoName)))]
    else []
  }

  /** The lookups of the caller's own task, project and work session. */
  function CurrentCalls(p: Ports, req: Request): seq<Call> {
    TaskCalls(p, req) + ProjectCalls(p, req) + SessionCalls(p, req)
  }

  /** With no repository, project or task in sight: the latest decisions at all. */
  function DecisionCalls(p: Ports, req: Request): seq<Call> {
    if req.repoName == "" && req.projectID.None? && req.taskID.None?
    then [Call("decision.All", TYPE_DECISION, p.allDecisions)]
    else
      (if req.repoName != "" then [Call("decision.ByRepo", TYPE_DECISION, p.decisionsByRepo(req.repoName))] else [])
      + (if req.projectID.Some?
         then [Call("decision.ByProject", TYPE_DECISION, p.decisionsByProject(req.projectID.value))] else [])
      + (if req.taskID.Some? then [Call("decision.ByTask", TYPE_DECISION, p.decisionsByTask(req.taskID.value))] else [])
  }

  /** A source the request may switch off: the type it yields and its calls. */
  datatype Source = Source(typ: string, calls: seq<Call>)

  function GatedSources(p: Ports, req: Request): seq<Source> {
    [Source(TYPE_DECISION, DecisionCalls(p, req)),
     Source(TYPE_KNOWLEDGE, [Call("knowledge.SearchReadOnly", TYPE_KNOWLEDGE, p.knowledge)]),
     Source(TYPE_ATOM, [Call("atom.Search", TYPE_ATOM, p.atoms)]),
     Source(TYPE_PROCEDURE, [Call("procedural.Query", TYPE_PROCEDURE, p.procedures)]),
     Source(TYPE_SKILL, [Call("skill.Search", TYPE_SKILL, p.skills)]),
     Source(TYPE_OUTCOME, [Call("outcome.ListFailedOutcomes", TYPE_OUTCOME, p.outcomes)]),
     Source(TYPE_REFLECTION, [Call("reflection.RecentWithPatterns", TYPE_REFLECTION, p.reflections)]),
     Source(TYPE_RULE, [Call("behaviorRule.List", TYPE_RULE, p.rules)]),
     Source(TYPE_SESSION, [Call("session.LatestHandoff", TYPE_SESSION, AsReply(p.handoff))])]
  }

  function IncludedBy(apiType: string): set<string> {
    if apiType == "semantic" then {TYPE_KNOWLEDGE, TYPE_DECISION}
    else if apiType == "episodic" then {TYPE_SESSION, TYPE_REFLECTION}
    else if apiType == "procedural" then {TYPE_PROCEDURE}
    else if apiType == "rules" then {TYPE_RULE}
    else if apiType == "skills" then {TYPE_SKILL}
    else if apiType == "atoms" then {TYPE_ATOM}
    else if apiType == "outcomes" then {TYPE_OUTCOME}
    else {}
  }

  function IncludeSet(apiTypes: seq<string>): set<string> {
    if |apiTypes| == 0 then {} else IncludeSet(apiTypes[..|apiTypes| - 1]) + IncludedBy(apiTypes[|apiTypes| - 1])
  }

  /** None is "no restriction". */
  function IncludeOf(apiTypes: seq<string>): Option<set<string>> {
    if |apiTypes| == 0 then None else Some(IncludeSet(apiTypes))
  }

  /** Exactly the types the names stand for, unknown names standing for none. */
  lemma {:induction false} IncludeSetMembers(apiTypes: seq<string>, t: string)
    ensures t in IncludeSet(apiTypes) <==> exists a :: a in apiTypes && t in IncludedBy(a)
    decreases |apiTypes|
  {
    if |apiTypes| > 0 {
      var init, last := apiTypes[..|apiTypes| - 1], apiTypes[|apiTypes| - 1];
      IncludeSetMembers(init, t);
      assert apiTypes == init + [last];
      if t in IncludedBy(last) { assert last in apiTypes; }
      if a :| a in init && t in IncludedBy(a) { assert a in apiTypes; }
    }
  }

  method ResolveIncludeTypes(apiTypes: seq<string>) returns (wanted: Option<set<string>>)
    ensures wanted == IncludeOf(apiTypes)
  {
    if |apiTypes| == 0 { return None; }
    var out: set<string> := {};
    var i := 0;
    while i < |apiTypes|
      invariant 0 <= i <= |apiTypes|
      invariant out == IncludeSet(apiTypes[..i])
    {
      TakeNext(apiTypes, i);
      out := out + IncludedBy(apiTypes[i]);
      i := i + 1;
    }
    assert apiTypes[..i] == apiTypes;
    return Some(out);
  }

  predicate Allowed(wanted: Option<set<string>>, typ: string) {
    wanted.None? || typ in wanted.value
  }

  function GatedCalls(sources: seq<Source>, wanted: Option<set<string>>): seq<Call> {
    if |sources| == 0 then []
    else
      GatedCalls(sources[..|sources| - 1], wanted)
      + (if Allowed(wanted, sources[|sources| - 1].typ) then sources[|sources| - 1].calls else [])
  }

  /** Every call a retrieval makes, in order. */
  function Calls(p: Ports, req: Request, wanted: Option<set<string>>): seq<Call> {
    CurrentCalls(p, req) + GatedCalls(GatedSources(p, req), wanted)
  }

  function Key(it: Item): string {
    it.typ + ":" + it.id
  }

  /** The text key separates all items of different type or id. */
  lemma KeyIsInjective(a: Item, b: Item)
    ensures Key(a) == Key(b) <==> a.typ == b.typ && a.id == b.id
  {
    if Key(a) == Key(b) {
      assert Key(a)[|Key(a)| - 36..] == a.id && Key(b)[|Key(b)| - 36..] == b.id;
      assert Key(a)[..|Key(a)| - 37] == a.typ && Key(b)[..|Key(b)| - 37] == b.typ;
    }
  }

  predicate HasKeyOf(items: seq<Item>, it: Item) {
    exists x :: x in items && x.typ == it.typ && x.id == it.id
  }

  /** Keeps the first item of every (type, id). */
  function Dedupe(items: seq<Item>): seq<Item> {
    if |items| == 0 then []
    else
      var init, x := Dedupe(items[..|items| - 1]), items[|items| - 1];
      if HasKeyOf(init, x) then init else init + [x]
  }

  lemma SeenIsHasKey(out: seq<Item>, it: Item, seen: set<string>)
    requires forall k :: k in seen <==> exists x :: x in out && Key(x) == k
    ensures Key(it) in seen <==> HasKeyOf(out, it)
  {
    if Key(it) in seen {
      var x :| x in out && Key(x) == Key(it);
      KeyIsInjective(x, it);
    }
    if HasKeyOf(out, it) {
      var x :| x in out && x.typ == it.typ && x.id == it.id;
      KeyIsInjective(x, it);
    }
  }

  method DedupeItems(items: seq<Item>) returns (out: seq<Item>)
    ensures out == Dedupe(items)
  {
    var seen: set<string> := {};
    out := [];
    var i := 0;
    while i < |items|
      invariant 0 <= i <= |items|
      invariant out == Dedupe(items[..i])
      invariant forall k :: k in seen <==> exists x :: x in out && Key(x) == k
    {
      assert items[..i + 1][..i] == items[..i] && items[..i + 1][i] == items[i];
      ghost var was := out;
      SeenIsHasKey(out, items[i], seen);
      if Key(items[i]) !in seen {
        seen := seen + {Key(items[i])};
        out := out + [items[i]];
      }
      i := i + 1;
    }
    assert items[..i] == items;
  }

  lemma KeyStays(a: seq<Item>, b: seq<Item>, y: Item)
    requires a <= b && HasKeyOf(a, y)
    ensures HasKeyOf(b, y)
  {
    var z :| z in a && z.typ == y.typ && z.id == y.id;
    assert z in b;
  }

  lemma {:induction false} KeyArrives(init: seq<Item>, x: Item, items: seq<Item>)
    requires items == init + [x]
    ensures HasKeyOf(Dedupe(items), x)
  {
    assert items[..|items| - 1] == init;
    if !HasKeyOf(Dedupe(init), x) { assert x in Dedupe(items); }
  }

  /** No repeats survive, nothing is invented, and every key is still there. */
  lemma {:induction false} DedupeFacts(items: seq<Item>)
    ensures DistinctKeys(Dedupe(items))
    ensures forall x :: x in Dedupe(items) ==> x in items
    ensures forall x :: x in items ==> HasKeyOf(Dedupe(items), x)
    decreases |items|
  {
    if |items| > 0 {
      var init, x := items[..|items| - 1], items[|items| - 1];
      DedupeFacts(init);
      assert items == init + [x];
      forall y | y in items ensures HasKeyOf(Dedupe(items), y) {
        if y in init { KeyStays(Dedupe(init), Dedupe(items), y); } else { assert y == x; KeyArrives(init, x, items); }
      }
    }
  }

  /** The survivor of a key is its first occurrence. */
  lemma {:induction false} DedupeKeepsFirst(items: seq<Item>, i: nat)
    requires i < |items|
    requires forall j :: 0 <= j < i ==> items[j].typ != items[i].typ || items[j].id != items[i].id
    ensures items[i] in Dedupe(items)
    decreases |items|
  {
    var init := items[..|items| - 1];
    if i < |items| - 1 {
      DedupeKeepsFirst(init, i);
    } else {
      DedupeFacts(init);
      assert forall x :: x in init ==> x.typ != items[i].typ || x.id != items[i].id;
    }
  }

  lemma {:induction false} RowOrigin(typ: string, rows: seq<Row>, x: Item)
    ensures x in ItemsOfRows(typ, rows) <==> exists r :: r in rows && Usable(r) && x == ItemFrom(typ, r)
    decreases |rows|
  {
    if |rows| > 0 {
      RowOrigin(typ, rows[..|rows| - 1], x);
      assert rows == rows[..|rows| - 1] + [rows[|rows| - 1]];
    }
  }

  lemma {:induction false} CallOrigin(calls: seq<Call>, x: Item)
    ensures x in ItemsOfCalls(calls) <==> exists c :: c in calls && x in ItemsOfCall(c)
    decreases |calls|
  {
    if |calls| > 0 {
      CallOrigin(calls[..|calls| - 1], x);
      assert calls == calls[..|calls| - 1] + [calls[|calls| - 1]];
    }
  }

  lemma {:induction false} ItemOrigin(calls: seq<Call>, x: Item)
    requires x in Dedupe(ItemsOfCalls(calls))
    ensures exists c :: c in calls && x in ItemsOfCall(c) && c.typ == x.typ
  {
    DedupeFacts(ItemsOfCalls(calls));
    CallOrigin(calls, x);
    var c :| c in calls && x in ItemsOfCall(c);
    RowOrigin(c.typ, c.reply.rows, x);
  }

  lemma {:induction false} ItemsConcat(a: seq<Call>, b: seq<Call>)
    ensures ItemsOfCalls(a + b) == ItemsOfCalls(a) + ItemsOfCalls(b)
    decreases |b|
  {
    if |b| == 0 {
      assert a + b == a;
    } else {
      var init, c := b[..|b| - 1], b[|b| - 1];
      ItemsConcat(a, init);
      InitOfConcat(a, b);
      Associative(ItemsOfCalls(a), ItemsOfCalls(init), ItemsOfCall(c));
    }
  }

  lemma {:induction false} WarningsConcat(a: seq<Call>, b: seq<Call>)
    ensures Warnings(a + b) == Warnings(a) + Warnings(b)
    decreases |b|
  {
    if |b| == 0 {
      assert a + b == a;
    } else {
      var init, c := b[..|b| - 1], b[|b| - 1];
      WarningsConcat(a, init);
      InitOfConcat(a, b);
      Associative(Warnings(a), Warnings(init), WarningsOfCall(c));
    }
  }

  lemma {:induction false} CallsConcat(a: seq<Call>, b: seq<Call>)
    ensures ItemsOfCalls(a + b) == ItemsOfCalls(a) + ItemsOfCalls(b)
    ensures Warnings(a + b) == Warnings(a) + Warnings(b)
  {
    ItemsConcat(a, b);
    WarningsConcat(a, b);
  }

  lemma {:induction false} OneCall(c: Call)
    ensures ItemsOfCalls([c]) == ItemsOfCall(c)
    ensures Warnings([c]) == WarningsOfCall(c)
  {
    assert [c][..0] == [];
  }

  lemma {:induction false} ThreeParts(before: seq<Call>, c: Call, after: seq<Call>)
    ensures ItemsOfCalls(before + [c] + after) == ItemsOfCalls(before) + ItemsOfCall(c) + ItemsOfCalls(after)
    ensures Warnings(before + [c] + after) == Warnings(before) + WarningsOfCall(c) + Warnings(after)
  {
    OneCall(c);
    CallsConcat(before, [c]);
    CallsConcat(before + [c], after);
  }

  /** A failing store costs exactly its own items and adds exactly one warning. */
  lemma {:induction false} FailureIsContained(before: seq<Call>, c: Call, after: seq<Call>)
    ensures ItemsOfCalls(before + [c.(reply := Failed)] + after) == ItemsOfCalls(before + after)
    ensures Warnings(before + [c.(reply := Failed)] + after) == Warnings(before) + [c.source] + Warnings(after)
  {
    ThreeParts(before, c.(reply := Failed), after);
    CallsConcat(before, after);
  }

  method ConvertRows(typ: string, rows: seq<Row>) returns (items: seq<Item>)
    ensures items == ItemsOfRows(typ, rows)
  {
    items := [];
    var i := 0;
    while i < |rows|
      invariant 0 <= i <= |rows|
      invariant items == ItemsOfRows(typ, rows[..i])
    {
      assert rows[..i + 1][..i] == rows[..i] && rows[..i + 1][i] == rows[i];
      if Usable(rows[i]) {
        items := items + [ItemFrom(typ, rows[i])];
      }
      i := i + 1;
    }
    assert rows[..i] == rows;
  }

  lemma {:induction false} NextCall(calls: seq<Call>, i: nat)
    requires i < |calls|
    ensures ItemsOfCalls(calls[..i + 1]) == ItemsOfCalls(calls[..i]) + ItemsOfCall(calls[i])
    ensures Warnings(calls[..i + 1]) == Warnings(calls[..i]) + WarningsOfCall(calls[i])
  {
    TakeNext(calls, i);
  }

  method RunCall(c: Call, items0: seq<Item>, warnings0: seq<string>) returns (items: seq<Item>, warnings: seq<string>)
    ensures items == items0 + ItemsOfCall(c)
    ensures warnings == warnings0 + WarningsOfCall(c)
  {
    items, warnings := items0, warnings0;
    match c.reply {
      case Rows(rows) =>
        var converted := ConvertRows(c.typ, rows);
        items := items + converted;
      case NotFound =>
      case Failed =>
        warnings := warnings + [c.source];
    }
  }

  /** Asks one store after another; a failed one is skipped with a warning. */
  method RunCalls(calls: seq<Call>, items0: seq<Item>, warnings0: seq<string>)
    returns (items: seq<Item>, warnings: seq<string>)
    ensures items == items0 + ItemsOfCalls(calls)
    ensures warnings == warnings0 + Warnings(calls)
  {
    items, warnings := items0, warnings0;
    var i := 0;
    while i < |calls|
      invariant 0 <= i <= |calls|
      invariant items == items0 + ItemsOfCalls(calls[..i])
      invariant warnings == warnings0 + Warnings(calls[..i])
    {
      NextCall(calls, i);
      Associative(items0, ItemsOfCalls(calls[..i]), ItemsOfCall(calls[i]));
      Associative(warnings0, Warnings(calls[..i]), WarningsOfCall(calls[i]));
      items, warnings := RunCall(calls[i], items, warnings);
      i := i + 1;
    }
    assert calls[..i] == calls;
  }

  function Retrieved(p: Ports, req: Request, wanted: Option<set<string>>): seq<Item> {
    Dedupe(ItemsOfCalls(Calls(p, req, wanted)))
  }

  /** The calls a source contributes. */
  function CallsOf(src: Source, wanted: Option<set<string>>): seq<Call> {
    if Allowed(wanted, src.typ) then src.calls else []
  }

  lemma {:induction false} NextSource(sources: seq<Source>, i: nat, wanted: Option<set<string>>)
    requires i < |sources|
    ensures var before, after := GatedCalls(sources[..i], wanted), GatedCalls(sources[..i + 1], wanted);
            && ItemsOfCalls(after) == ItemsOfCalls(before) + ItemsOfCalls(CallsOf(sources[i], wanted))
            && Warnings(after) == Warnings(before) + Warnings(CallsOf(sources[i], wanted))
  {
    TakeNext(sources, i);
    CallsConcat(GatedCalls(sources[..i], wanted), CallsOf(sources[i], wanted));
  }

  method RunSource(sources: seq<Source>, i: nat, wanted: Option<set<string>>, ghost items0: seq<Item>,
                   ghost warnings0: seq<string>, items1: seq<Item>, warnings1: seq<string>)
    returns (items: seq<Item>, warnings: seq<string>)
    requires i < |sources|
    requires items1 == items0 + ItemsOfCalls(GatedCalls(sources[..i], wanted))
    requires warnings1 == warnings0 + Warnings(GatedCalls(sources[..i], wanted))
    ensures items == items0 + ItemsOfCalls(GatedCalls(sources[..i + 1], wanted))
    ensures warnings == warnings0 + Warnings(GatedCalls(sources[..i + 1], wanted))
  {
    NextSource(sources, i, wanted);
    var calls := CallsOf(sources[i], wanted);
    items, warnings := RunCalls(calls, items1, warnings1);
    Associative(items0, ItemsOfCalls(GatedCalls(sources[..i], wanted)), ItemsOfCalls(calls));
    Associative(warnings0, Warnings(GatedCalls(sources[..i], wanted)), Warnings(calls));
  }

  /** Goes through the sources the request wants. */
  method RunSources(sources: seq<Source>, wanted: Option<set<string>>, items0: seq<Item>, warnings0: seq<string>)
    returns (items: seq<Item>, warnings: seq<string>)
    ensures items == items0 + ItemsOfCalls(GatedCalls(sources, wanted))
    ensures warnings == warnings0 + Warnings(GatedCalls(sources, wanted))
  {
    items, warnings := items0, warnings0;
    var i := 0;
    while i < |sources|
      invariant 0 <= i <= |sources|
      invariant items == items0 + ItemsOfCalls(GatedCalls(sources[..i], wanted))
      invariant warnings == warnings0 + Warnings(GatedCalls(sources[..i], wanted))
    {
      items, warnings := RunSource(sources, i, wanted, items0, warnings0, items, warnings);
      i := i + 1;
    }
    assert sources[..i] == sources;
  }

  // ----- what the stores answer, read off the ports -----

  ghost predicate Among(reply: Reply, row: Row) {
    reply.Rows? && row in reply.rows
  }

  /** The request puts no restriction on this type of row, or names it. */
  ghost predicate Wants(req: Request, typ: string) {
    || req.includeTypes == []
    || ("semantic" in req.includeTypes && (typ == "knowledge" || typ == "decision"))
    || ("episodic" in req.includeTypes && (typ == "session" || typ == "reflection"))
    || ("procedural" in req.includeTypes && typ == "procedure")
    || ("rules" in req.includeTypes && typ == "rule")
    || ("skills" in req.includeTypes && typ == "skill")
    || ("atoms" in req.includeTypes && typ == "atom")
    || ("outcomes" in req.includeTypes && typ == "outcome")
  }

  /** The caller's own task, project and work session. */
  ghost predicate CurrentAnswers(p: Ports, req: Request, typ: string, row: Row) {
    || (typ == "task" && req.taskID.Some? && p.taskByID(req.taskID.value) == Found(row))
    || (typ == "project" && req.projectID.Some? && p.projectByID(req.projectID.value) == Found(row))
    || (typ == "project" && req.projectID.None? && req.repoName != "" && Among(p.projectsByRepo(req.repoName), row))
    || (typ == "session" && req.repoName != "" && p.scoped && p.activeSession(req.repoName) == Found(row))
  }

  ghost predicate DecisionAnswers(p: Ports, req: Request, row: Row) {
    || (req.repoName == "" && req.projectID.None? && req.taskID.None? && Among(p.allDecisions, row))
    || (req.repoName != "" && Among(p.decisionsByRepo(req.repoName), row))
    || (req.projectID.Some? && Among(p.decisionsByProject(req.projectID.value), row))
    || (req.taskID.Some? && Among(p.decisionsByTask(req.taskID.value), row))
  }

  /** What the request may switch off. */
  ghost predicate GatedAnswers(p: Ports, req: Request, typ: string, row: Row) {
    if typ == "decision" then DecisionAnswers(p, req, row)
    else if typ == "knowledge" then Among(p.knowledge, row)
    else if typ == "atom" then Among(p.atoms, row)
    else if typ == "procedure" then Among(p.procedures, row)
    else if typ == "skill" then Among(p.skills, row)
    else if typ == "outcome" then Among(p.outcomes, row)
    else if typ == "reflection" then Among(p.reflections, row)
    else if typ == "rule" then Among(p.rules, row)
    else typ == "session" && p.handoff == Found(row)
  }

  /** A store that is to be asked for this request answers with this row. */
  ghost predicate Answers(p: Ports, req: Request, typ: string, row: Row) {
    || CurrentAnswers(p, req, typ, row)
    || (Wants(req, typ) && GatedAnswers(p, req, typ, row))
  }

  ghost predicate CurrentFails(p: Ports, req: Request, source: string) {
    || (source == "gtd.GetTaskByID" && req.taskID.Some? && p.taskByID(req.taskID.value) == Broken)
    || (source == "gtd.GetProjectByID" && req.projectID.Some? && p.projectByID(req.projectID.value) == Broken)
    || (source == "gtd.ProjectsByRepoName" && req.projectID.None? && req.repoName != ""
        && p.projectsByRepo(req.repoName) == Failed)
    || (source == "workSession.GetActive" && req.repoName != "" && p.scoped && p.activeSession(req.repoName) == Broken)
  }

  ghost predicate DecisionFails(p: Ports, req: Request, source: string) {
    || (source == "decision.All" && req.repoName == "" && req.projectID.None? && req.taskID.None?
        && p.allDecisions == Failed)
    || (source == "decision.ByRepo" && req.repoName != "" && p.decisionsByRepo(req.repoName) == Failed)
    || (source == "decision.ByProject" && req.projectID.Some? && p.decisionsByProject(req.projectID.value) == Failed)
    || (source == "decision.ByTask" && req.taskID.Some? && p.decisionsByTask(req.taskID.value) == Failed)
  }

  ghost predicate GatedFails(p: Ports, req: Request, typ: string, source: string) {
    if typ == "decision" then DecisionFails(p, req, source)
    else if typ == "knowledge" then source == "knowledge.SearchReadOnly" && p.knowledge == Failed
    else if typ == "atom" then source == "atom.Search" && p.atoms == Failed
    else if typ == "procedure" then source == "procedural.Query" && p.procedures == Failed
    else if typ == "skill" then source == "skill.Search" && p.skills == Failed
    else if typ == "outcome" then source == "outcome.ListFailedOutcomes" && p.outcomes == Failed
    else if typ == "reflection" then source == "reflection.RecentWithPatterns" && p.reflections == Failed
    else if typ == "rule" then source == "behaviorRule.List" && p.rules == Failed
    else typ == "session" && source == "session.LatestHandoff" && p.handoff == Broken
  }

  /** A store that is to be asked for this request fails. */
  ghost predicate Fails(p: Ports, req: Request, source: string) {
    || CurrentFails(p, req, source)
    || exists typ :: Wants(req, typ) && GatedFails(p, req, typ, source)
  }

  /** The item a row becomes: its text is cut after 500 characters. */
  ghost predicate IsItemOf(x: Item, typ: string, row: Row) {
    && x.typ == typ && row.id == Some(x.id) && !row.archived
    && x.summary <= row.text && |x.summary| == (if |row.text| < 500 then |row.text| else 500)
    && x.prov == row.prov
  }

  /** Every row with an id that is not archived has its item, ... */
  ghost predicate AllAnswersIn(p: Ports, req: Request, items: seq<Item>) {
    forall typ, row :: Answers(p, req, typ, row) && row.id.Some? && !row.archived ==>
      exists x :: x in items && x.typ == typ && x.id == row.id.value
  }

  /** ... and there is no other item. */
  ghost predicate OnlyAnswersIn(p: Ports, req: Request, items: seq<Item>) {
    forall x :: x in items ==> exists row :: Answers(p, req, x.typ, row) && IsItemOf(x, x.typ, row)
  }

  /** A row that stands for none. */
  const NO_ROW := Row(None, "", false, Prov("", "", "", false, false, false, false, false))

  /** One of these calls brings the row. */
  ghost predicate Offers(calls: seq<Call>, typ: string, row: Row) {
    exists c :: c in calls && c.typ == typ && Among(c.reply, row)
  }

  /** One of these calls is a failing one to the source. */
  ghost predicate Reports(calls: seq<Call>, source: string) {
    exists c :: c in calls && c.source == source && c.reply.Failed?
  }

  lemma OfConcat(a: seq<Call>, b: seq<Call>, typ: string, row: Row, source: string)
    ensures Offers(a + b, typ, row) <==> Offers(a, typ, row) || Offers(b, typ, row)
    ensures Reports(a + b, source) <==> Reports(a, source) || Reports(b, source)
  {
    if Offers(a, typ, row) {
      var c :| c in a && c.typ == typ && Among(c.reply, row);
      assert c in a + b;
    }
    if Offers(b, typ, row) {
      var c :| c in b && c.typ == typ && Among(c.reply, row);
      assert c in a + b;
    }
    if Reports(a, source) {
      var c :| c in a && c.source == source && c.reply.Failed?;
      assert c in a + b;
    }
    if Reports(b, source) {
      var c :| c in b && c.source == source && c.reply.Failed?;
      assert c in a + b;
    }
  }

  lemma OfOne(c: Call, typ: string, row: Row, source: string)
    ensures Offers([c], typ, row) <==> c.typ == typ && Among(c.reply, row)
    ensures Reports([c], source) <==> c.source == source && c.reply.Failed?
  {
    assert c in [c];
  }

  lemma TaskMeans(p: Ports, req: Request, typ: string, row: Row, source: string)
    ensures Offers(TaskCalls(p, req), typ, row) <==>
              typ == "task" && req.taskID.Some? && p.taskByID(req.taskID.value) == Found(row)
    ensures Reports(TaskCalls(p, req), source) <==>
              source == "gtd.GetTaskByID" && req.taskID.Some? && p.taskByID(req.taskID.value) == Broken
  {
    if req.taskID.Some? { OfOne(TaskCalls(p, req)[0], typ, row, source); }
  }

  lemma ProjectMeans(p: Ports, req: Request, typ: string, row: Row, source: string)
    ensures Offers(ProjectCalls(p, req), typ, row) <==>
              typ == "project" && if req.projectID.Some? then p.projectByID(req.projectID.value) == Found(row)
                else req.repoName != "" && Among(p.projectsByRepo(req.repoName), row)
    ensures Reports(ProjectCalls(p, req), source) <==>
              || (source == "gtd.GetProjectByID" && req.projectID.Some? && p.projectByID(req.projectID.value) == Broken)
              || (source == "gtd.ProjectsByRepoName" && req.projectID.None? && req.repoName != ""
                  && p.projectsByRepo(req.repoName) == Failed)
  {
    if req.projectID.Some? || req.repoName != "" { OfOne(ProjectCalls(p, req)[0], typ, row, source); }
  }

  lemma SessionMeans(p: Ports, req: Request, typ: string, row: Row, source: string)
    ensures Offers(SessionCalls(p, req), typ, row) <==>
              typ == "session" && req.repoName != "" && p.scoped && p.activeSession(req.repoName) == Found(row)
    ensures Reports(SessionCalls(p, req), source) <==>
              source == "workSession.GetActive" && req.repoName != "" && p.scoped
              && p.activeSession(req.repoName) == Broken
  {
    if req.repoName != "" && p.scoped { OfOne(SessionCalls(p, req)[0], typ, row, source); }
  }

  lemma CurrentMeans(p: Ports, req: Request, typ: string, row: Row, source: string)
    ensures Offers(CurrentCalls(p, req), typ, row) <==> CurrentAnswers(p, req, typ, row)
    ensures Reports(CurrentCalls(p, req), source) <==> CurrentFails(p, req, source)
  {
    OfConcat(TaskCalls(p, req), ProjectCalls(p, req), typ, row, source);
    OfConcat(TaskCalls(p, req) + ProjectCalls(p, req), SessionCalls(p, req), typ, row, source);
    TaskMeans(p, req, typ, row, source);
    ProjectMeans(p, req, typ, row, source);
    SessionMeans(p, req, typ, row, source);
  }

  lemma DecisionMeans(p: Ports, req: Request, typ: string, row: Row, source: string)
    ensures Offers(DecisionCalls(p, req), typ, row) <==> typ == "decision" && DecisionAnswers(p, req, row)
    ensures Reports(DecisionCalls(p, req), source) <==> DecisionFails(p, req, source)
  {
    if req.repoName == "" && req.projectID.None? && req.taskID.None? {
      OfOne(DecisionCalls(p, req)[0], typ, row, source);
    } else {
      var a := if req.repoName != "" then [Call("decision.ByRepo", TYPE_DECISION, p.decisionsByRepo(req.repoName))]
               else [];
      var b := if req.projectID.Some?
               then [Call("decision.ByProject", TYPE_DECISION, p.decisionsByProject(req.projectID.value))] else [];
      var c := if req.taskID.Some?
               then [Call("decision.ByTask", TYPE_DECISION, p.decisionsByTask(req.taskID.value))] else [];
      assert DecisionCalls(p, req) == a + b + c;
      OfConcat(a + b, c, typ, row, source);
      OfConcat(a, b, typ, row, source);
      if |a| > 0 { OfOne(a[0], typ, row, source); }
      if |b| > 0 { OfOne(b[0], typ, row, source); }
      if |c| > 0 { OfOne(c[0], typ, row, source); }
    }
  }

  lemma {:induction false} WantsIff(req: Request, typ: string)
    ensures Wants(req, typ) <==> Allowed(IncludeOf(req.includeTypes), typ)
  {
    IncludeSetMembers(req.includeTypes, typ);
  }

  lemma {:induction false} GatedMembers(sources: seq<Source>, wanted: Option<set<string>>, c: Call)
    ensures c in GatedCalls(sources, wanted) <==>
            exists i :: 0 <= i < |sources| && Allowed(wanted, sources[i].typ) && c in sources[i].calls
    decreases |sources|
  {
    if |sources| > 0 {
      var init, last := sources[..|sources| - 1], sources[|sources| - 1];
      GatedMembers(init, wanted, c);
      if Allowed(wanted, last.typ) && c in last.calls { assert sources[|sources| - 1] == last; }
      if i :| 0 <= i < |init| && Allowed(wanted, init[i].typ) && c in init[i].calls { assert sources[i] == init[i]; }
    }
  }

  /** Source `i` is wanted and brings the row, or reports. */
  ghost predicate OffersAt(sources: seq<Source>, req: Request, i: nat, typ: string, row: Row) {
    i < |sources| && Wants(req, sources[i].typ) && Offers(sources[i].calls, typ, row)
  }

  ghost predicate ReportsAt(sources: seq<Source>, req: Request, i: nat, source: string) {
    i < |sources| && Wants(req, sources[i].typ) && Reports(sources[i].calls, source)
  }

  lemma {:induction false} OneMoreSource(init: seq<Source>, last: Source, req: Request, typ: string, row: Row,
                                         source: string)
    ensures (exists i: nat :: OffersAt(init + [last], req, i, typ, row)) <==>
              || (exists i: nat :: OffersAt(init, req, i, typ, row))
              || (Wants(req, last.typ) && Offers(last.calls, typ, row))
    ensures (exists i: nat :: ReportsAt(init + [last], req, i, source)) <==>
              || (exists i: nat :: ReportsAt(init, req, i, source))
              || (Wants(req, last.typ) && Reports(last.calls, source))
  {
    var n := |init|;
    forall i: nat
      ensures OffersAt(init + [last], req, i, typ, row) <==>
                OffersAt(init, req, i, typ, row) || (i == n && Wants(req, last.typ) && Offers(last.calls, typ, row))
      ensures ReportsAt(init + [last], req, i, source) <==>
                ReportsAt(init, req, i, source) || (i == n && Wants(req, last.typ) && Reports(last.calls, source))
    {
    }
    assert OffersAt(init + [last], req, n, typ, row) <==> Wants(req, last.typ) && Offers(last.calls, typ, row);
    assert ReportsAt(init + [last], req, n, source) <==> Wants(req, last.typ) && Reports(last.calls, source);
  }

  /** What the gated sources bring and report. */
  lemma {:induction false} GatedMeans(sources: seq<Source>, req: Request, typ: string, row: Row, source: string)
    ensures Offers(GatedCalls(sources, IncludeOf(req.includeTypes)), typ, row) <==>
              exists i: nat :: OffersAt(sources, req, i, typ, row)
    ensures Reports(GatedCalls(sources, IncludeOf(req.includeTypes)), source) <==>
              exists i: nat :: ReportsAt(sources, req, i, source)
    decreases |sources|
  {
    if |sources| > 0 {
      var init, last := sources[..|sources| - 1], sources[|sources| - 1];
      var wanted := IncludeOf(req.includeTypes);
      GatedMeans(init, req, typ, row, source);
      WantsIff(req, last.typ);
      OfConcat(GatedCalls(init, wanted), CallsOf(last, wanted), typ, row, source);
      OneMoreSource(init, last, req, typ, row, source);
      assert sources == init + [last];
    }
  }

  /** The gated sources but the decisions ask one store each. */
  lemma SourceMeans(p: Ports, req: Request, i: nat, typ: string, row: Row, source: string)
    requires 0 < i < |GatedSources(p, req)|
    ensures var src := GatedSources(p, req)[i];
            && |src.calls| == 1 && src.calls[0].typ == src.typ
            && (Offers(src.calls, typ, row) <==> src.typ == typ && Among(src.calls[0].reply, row))
            && (Reports(src.calls, source) <==> src.calls[0].source == source && src.calls[0].reply.Failed?)
  {
    OfOne(GatedSources(p, req)[i].calls[0], typ, row, source);
  }

  /** The place of a gated source in the list. */
  ghost function PlaceOf(typ: string): nat {
    if typ == "decision" then 0
    else if typ == "knowledge" then 1
    else if typ == "atom" then 2
    else if typ == "procedure" then 3
    else if typ == "skill" then 4
    else if typ == "outcome" then 5
    else if typ == "reflection" then 6
    else if typ == "rule" then 7
    else if typ == "session" then 8
    else 9
  }

  lemma Places(p: Ports, req: Request, i: nat, typ: string)
    requires i < |GatedSources(p, req)|
    ensures PlaceOf(typ) == i <==> GatedSources(p, req)[i].typ == typ
  {
  }

  lemma SourceAnswers(p: Ports, req: Request, i: nat, row: Row)
    requires 0 < i < |GatedSources(p, req)|
    ensures |GatedSources(p, req)[i].calls| == 1
    ensures Among(GatedSources(p, req)[i].calls[0].reply, row) <==>
            GatedAnswers(p, req, GatedSources(p, req)[i].typ, row)
  {
  }

  lemma SourceOffers(p: Ports, req: Request, i: nat, typ: string, row: Row)
    requires i < |GatedSources(p, req)|
    ensures Offers(GatedSources(p, req)[i].calls, typ, row) <==> PlaceOf(typ) == i && GatedAnswers(p, req, typ, row)
  {
    Places(p, req, i, typ);
    if i == 0 {
      DecisionMeans(p, req, typ, row, "");
    } else {
      SourceMeans(p, req, i, typ, row, "");
      SourceAnswers(p, req, i, row);
    }
  }

  lemma SourceFails(p: Ports, req: Request, i: nat, source: string)
    requires 0 < i < |GatedSources(p, req)|
    ensures |GatedSources(p, req)[i].calls| == 1
    ensures var c := GatedSources(p, req)[i].calls[0];
            c.source == source && c.reply.Failed? <==> GatedFails(p, req, GatedSources(p, req)[i].typ, source)
  {
  }

  lemma SourceReports(p: Ports, req: Request, i: nat, source: string)
    requires i < |GatedSources(p, req)|
    ensures Reports(GatedSources(p, req)[i].calls, source) <==>
            GatedFails(p, req, GatedSources(p, req)[i].typ, source)
  {
    if i == 0 {
      DecisionMeans(p, req, "", NO_ROW, source);
    } else {
      SourceMeans(p, req, i, "", NO_ROW, source);
      SourceFails(p, req, i, source);
    }
  }

  lemma AnswerIsOffered(p: Ports, req: Request, typ: string, row: Row)
    requires Wants(req, typ) && GatedAnswers(p, req, typ, row)
    ensures Offers(GatedCalls(GatedSources(p, req), IncludeOf(req.includeTypes)), typ, row)
  {
    var sources, i := GatedSources(p, req), PlaceOf(typ);
    Places(p, req, i, typ);
    SourceOffers(p, req, i, typ, row);
    GatedMeans(sources, req, typ, row, "");
    assert OffersAt(sources, req, i, typ, row);
  }

  lemma OfferIsAnswer(p: Ports, req: Request, typ: string, row: Row)
    requires Offers(GatedCalls(GatedSources(p, req), IncludeOf(req.includeTypes)), typ, row)
    ensures Wants(req, typ) && GatedAnswers(p, req, typ, row)
  {
    var sources := GatedSources(p, req);
    GatedMeans(sources, req, typ, row, "");
    var i: nat :| OffersAt(sources, req, i, typ, row);
    SourceOffers(p, req, i, typ, row);
    Places(p, req, i, typ);
  }

  /** The calls of a retrieval bring what the ports answer for the request. */
  lemma CallsBring(p: Ports, req: Request, typ: string, row: Row)
    ensures Offers(Calls(p, req, IncludeOf(req.includeTypes)), typ, row) <==> Answers(p, req, typ, row)
  {
    var gated := GatedCalls(GatedSources(p, req), IncludeOf(req.includeTypes));
    CurrentMeans(p, req, typ, row, "");
    OfConcat(CurrentCalls(p, req), gated, typ, row, "");
    if Offers(gated, typ, row) { OfferIsAnswer(p, req, typ, row); }
    if Wants(req, typ) && GatedAnswers(p, req, typ, row) { AnswerIsOffered(p, req, typ, row); }
  }

  lemma FailureIsReported(p: Ports, req: Request, typ: string, source: string)
    requires Wants(req, typ) && GatedFails(p, req, typ, source)
    ensures Reports(GatedCalls(GatedSources(p, req), IncludeOf(req.includeTypes)), source)
  {
    var sources, i := GatedSources(p, req), PlaceOf(typ);
    Places(p, req, i, typ);
    SourceReports(p, req, i, source);
    GatedMeans(sources, req, "", NO_ROW, source);
    assert ReportsAt(sources, req, i, source);
  }

  lemma ReportIsFailure(p: Ports, req: Request, source: string)
    requires Reports(GatedCalls(GatedSources(p, req), IncludeOf(req.includeTypes)), source)
    ensures exists typ :: Wants(req, typ) && GatedFails(p, req, typ, source)
  {
    var sources := GatedSources(p, req);
    GatedMeans(sources, req, "", NO_ROW, source);
    var i: nat :| ReportsAt(sources, req, i, source);
    SourceReports(p, req, i, source);
  }

  lemma CallsReport(p: Ports, req: Request, source: string)
    ensures Reports(Calls(p, req, IncludeOf(req.includeTypes)), source) <==> Fails(p, req, source)
  {
    var gated := GatedCalls(GatedSources(p, req), IncludeOf(req.includeTypes));
    CurrentMeans(p, req, "", NO_ROW, source);
    OfConcat(CurrentCalls(p, req), gated, "", NO_ROW, source);
    if Reports(gated, source) { ReportIsFailure(p, req, source); }
    if typ :| Wants(req, typ) && GatedFails(p, req, typ, source) { FailureIsReported(p, req, typ, source); }
  }

  lemma {:induction false} WarningMembers(calls: seq<Call>, source: string)
    ensures source in Warnings(calls) <==> Reports(calls, source)
    decreases |calls|
  {
    if |calls| > 0 {
      var init, c := calls[..|calls| - 1], calls[|calls| - 1];
      WarningMembers(init, source);
      assert calls == init + [c];
        OfConcat(init, [c], "", NO_ROW, source);
      OfOne(c, "", NO_ROW, source);
    }
  }

  /** A row that is brought and usable has its item, of its key. */
  lemma {:induction false} BroughtIsIn(calls: seq<Call>, typ: string, row: Row)
    requires Offers(calls, typ, row) && Usable(row)
    ensures exists x :: x in Dedupe(ItemsOfCalls(calls)) && x.typ == typ && x.id == row.id.value
  {
    var c :| c in calls && c.typ == typ && Among(c.reply, row);
    var x := ItemFrom(typ, row);
    RowOrigin(typ, c.reply.rows, x);
    CallOrigin(calls, x);
    DedupeFacts(ItemsOfCalls(calls));
    assert HasKeyOf(Dedupe(ItemsOfCalls(calls)), x);
  }

  /** An item comes from a row that is brought. */
  lemma {:induction false} ItemWasBrought(calls: seq<Call>, x: Item)
    requires x in Dedupe(ItemsOfCalls(calls))
    ensures exists row :: Offers(calls, x.typ, row) && IsItemOf(x, x.typ, row)
    ensures x.score == 0 && x.reasons == []
  {
    ItemOrigin(calls, x);
    var c :| c in calls && x in ItemsOfCall(c) && c.typ == x.typ;
    RowOrigin(c.typ, c.reply.rows, x);
    var row :| row in c.reply.rows && Usable(row) && x == ItemFrom(c.typ, row);
    assert Offers(calls, x.typ, row) && IsItemOf(x, x.typ, row);
  }

  /** Retrieval brings exactly what the ports answer, and reports what fails. */
  lemma {:induction false} RetrievedIsAnswered(p: Ports, req: Request)
    ensures var items := Retrieved(p, req, IncludeOf(req.includeTypes));
            && DistinctKeys(items) && AllAnswersIn(p, req, items) && OnlyAnswersIn(p, req, items)
            && forall x :: x in items ==> x.score == 0 && x.reasons == []
    ensures forall w :: w in Warnings(Calls(p, req, IncludeOf(req.includeTypes))) <==> Fails(p, req, w)
  {
    var calls := Calls(p, req, IncludeOf(req.includeTypes));
    var items := Retrieved(p, req, IncludeOf(req.includeTypes));
    DedupeFacts(ItemsOfCalls(calls));
    forall typ, row | Answers(p, req, typ, row) && row.id.Some? && !row.archived
      ensures exists x :: x in items && x.typ == typ && x.id == row.id.value
    {
      CallsBring(p, req, typ, row);
      BroughtIsIn(calls, typ, row);
    }
    forall x | x in items
      ensures exists row :: Answers(p, req, x.typ, row) && IsItemOf(x, x.typ, row)
      ensures x.score == 0 && x.reasons == []
    {
      ItemWasBrought(calls, x);
      var row :| Offers(calls, x.typ, row) && IsItemOf(x, x.typ, row);
      CallsBring(p, req, x.typ, row);
    }
    forall w ensures w in Warnings(calls) <==> Fails(p, req, w) {
      WarningMembers(calls, w);
      CallsReport(p, req, w);
    }
  }

  /** Asks every store the request makes applicable. Each usable row that comes
      back is among the items once, cut to its summary, and nothing else is; the
      warnings name the stores that failed. */
  method Retrieve(p: Ports, req: Request) returns (items: seq<Item>, warnings: seq<string>)
    ensures items == Retrieved(p, req, IncludeOf(req.includeTypes))
    ensures warnings == Warnings(Calls(p, req, IncludeOf(req.includeTypes)))
    ensures DistinctKeys(items) && AllAnswersIn(p, req, items) && OnlyAnswersIn(p, req, items)
    ensures forall x :: x in items ==> x.score == 0 && x.reasons == []
    ensures forall w :: w in warnings <==> Fails(p, req, w)
  {
    var wanted := ResolveIncludeTypes(req.includeTypes);
    var current, sources := CurrentCalls(p, req), GatedSources(p, req);
    items, warnings := RunCalls(current, [], []);
    assert items == ItemsOfCalls(current) && warnings == Warnings(current);
    items, warnings := RunSources(sources, wanted, items, warnings);
    CallsConcat(current, GatedCalls(sources, wanted));
    items := DedupeItems(items);
    RetrievedIsAnswered(p, req);
  }
}

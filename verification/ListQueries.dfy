/** The paged list queries over decisions, goals and projects. */
module ListQueries {
  import opened Ids
  import opened Ordering
  import opened Paging
  import opened Seqs
  import S = StableSort

  const ACTIVE := "active"
  const MANUAL := "manual"

  datatype Decision = Decision(id: Uuid, ws: Option<Uuid>, project: Option<Uuid>, repo: Option<string>,
                               task: Option<Uuid>, source: string, createdAt: int)

  datatype Goal = Goal(id: Uuid, ws: Option<Uuid>, status: string, dueDate: Option<int>)

  datatype Project = Project(id: Uuid, ws: Option<Uuid>, status: string, priority: int, updatedAt: int)

  /** `$1 IS NULL OR column = $1`: an absent parameter does not filter, and a
      NULL column never equals a present one. */
  predicate Admits<T(==)>(param: Option<T>, column: Option<T>) {
    param.Some? ==> column == param
  }

  datatype ListParams = ListParams(ws: Option<Uuid>, project: Option<Uuid>, repo: Option<string>, includeAuto: bool)

  function Listed(p: ListParams): Decision -> bool {
    (d: Decision) => Admits(p.ws, d.ws) && Admits(p.project, d.project) && Admits(p.repo, d.repo)
      && (p.includeAuto || d.source == MANUAL)
  }

  /** `created_at DESC, id DESC`. */
  predicate NewerDecision(a: Decision, b: Decision) {
    a.createdAt > b.createdAt || (a.createdAt == b.createdAt && LexLess(b.id, a.id))
  }

  /** `created_at DESC` alone, as the query by task has it. */
  predicate NewerOnly(a: Decision, b: Decision) {
    a.createdAt > b.createdAt
  }

  /** `due_date ASC NULLS LAST, id ASC`. */
  predicate SoonerGoal(a: Goal, b: Goal) {
    match (a.dueDate, b.dueDate)
    case (Some(x), Some(y)) => x < y || (x == y && LexLess(a.id, b.id))
    case (Some(_), None) => true
    case (None, Some(_)) => false
    case (None, None) => LexLess(a.id, b.id)
  }

  /** `priority ASC, updated_at DESC, id ASC`. */
  predicate RanksAboveProject(a: Project, b: Project) {
    || a.priority < b.priority
    || (a.priority == b.priority && a.updatedAt > b.updatedAt)
    || (a.priority == b.priority && a.updatedAt == b.updatedAt && LexLess(a.id, b.id))
  }

  lemma IdsAreOrdered(x: string, y: string, z: string)
    ensures LexLess(x, y) ==> !LexLess(y, x)
    ensures LexLess(x, z) ==> LexLess(x, y) || LexLess(y, z)
    ensures x != y ==> LexLess(x, y) || LexLess(y, x)
  {
    LexTrichotomy(x, y);
    if LexLess(x, z) && !LexLess(x, y) {
      if x != y { LexTransitive(y, x, z); }
    }
  }

  lemma NewerIsStrictWeakOrder()
    ensures S.StrictWeakOrder(NewerDecision)
  {
    forall x, y | NewerDecision(x, y) ensures !NewerDecision(y, x) { IdsAreOrdered(y.id, x.id, x.id); }
    forall x, y, z | NewerDecision(x, z) ensures NewerDecision(x, y) || NewerDecision(y, z) {
      IdsAreOrdered(z.id, y.id, x.id);
    }
  }

  lemma SoonerIsStrictWeakOrder()
    ensures S.StrictWeakOrder(SoonerGoal)
  {
    forall x, y | SoonerGoal(x, y) ensures !SoonerGoal(y, x) { IdsAreOrdered(x.id, y.id, x.id); }
    forall x, y, z | SoonerGoal(x, z) ensures SoonerGoal(x, y) || SoonerGoal(y, z) { IdsAreOrdered(x.id, y.id, z.id); }
  }

  lemma RanksAboveIsStrictWeakOrder()
    ensures S.StrictWeakOrder(RanksAboveProject)
  {
    forall x, y | RanksAboveProject(x, y) ensures !RanksAboveProject(y, x) { IdsAreOrdered(x.id, y.id, x.id); }
    forall x, y, z | RanksAboveProject(x, z) ensures RanksAboveProject(x, y) || RanksAboveProject(y, z) {
      IdsAreOrdered(x.id, y.id, z.id);
    }
  }

  /** `id` is the primary key: rows with the same id are the same row. */
  ghost predicate DecisionKeys(table: seq<Decision>) {
    forall x, y :: x in table && y in table && x.id == y.id ==> x == y
  }

  ghost predicate GoalKeys(table: seq<Goal>) {
    forall x, y :: x in table && y in table && x.id == y.id ==> x == y
  }

  ghost predicate ProjectKeys(table: seq<Project>) {
    forall x, y :: x in table && y in table && x.id == y.id ==> x == y
  }

  /** The list is sorted and has every matching row as often as the table. */
  lemma {:induction false} ListFacts<T(!new)>(less: (T, T) -> bool, keep: T -> bool, table: seq<T>)
    requires S.StrictWeakOrder(less)
    ensures var c := S.Sort(less, S.Filter(keep, table));
            S.Sorted(less, c) && forall x :: multiset(c)[x] == if keep(x) then multiset(table)[x] else 0
  {
    var rows := S.Filter(keep, table);
    S.SortSorted(less, rows);
    S.SortMultiset(less, rows);
    forall x ensures multiset(rows)[x] == if keep(x) then multiset(table)[x] else 0 { S.FilterCount(keep, table, x); }
  }

  /** Newest first, of one moment the larger id first. */
  ghost predicate NewestFirst(c: seq<Decision>) {
    forall i, j :: 0 <= i < j < |c| ==>
      || c[i].createdAt > c[j].createdAt
      || (c[i].createdAt == c[j].createdAt && !LexLess(c[i].id, c[j].id))
  }

  /** Soonest first and undated last, of one date the smaller id first. */
  ghost predicate SoonestFirst(c: seq<Goal>) {
    forall i, j :: 0 <= i < j < |c| ==>
      || (c[i].dueDate.Some? && c[j].dueDate.None?)
      || (c[i].dueDate.Some? && c[j].dueDate.Some? && c[i].dueDate.value < c[j].dueDate.value)
      || (c[i].dueDate == c[j].dueDate && !LexLess(c[j].id, c[i].id))
  }

  lemma SortedIsSoonestFirst(c: seq<Goal>)
    requires S.Sorted(SoonerGoal, c)
    ensures SoonestFirst(c)
  {
    forall i, j | 0 <= i < j < |c|
      ensures || (c[i].dueDate.Some? && c[j].dueDate.None?)
              || (c[i].dueDate.Some? && c[j].dueDate.Some? && c[i].dueDate.value < c[j].dueDate.value)
              || (c[i].dueDate == c[j].dueDate && !LexLess(c[j].id, c[i].id))
    {
      assert !SoonerGoal(c[j], c[i]);
    }
  }

  /** Smallest priority number first, then latest update, then smaller id. */
  ghost predicate UrgentFirst(c: seq<Project>) {
    forall i, j :: 0 <= i < j < |c| ==>
      || c[i].priority < c[j].priority
      || (c[i].priority == c[j].priority && c[i].updatedAt > c[j].updatedAt)
      || (c[i].priority == c[j].priority && c[i].updatedAt == c[j].updatedAt && !LexLess(c[j].id, c[i].id))
  }

  /** For every filter and page size, the pages of the decision list put together
      are exactly the matching decisions, newest first. */
  lemma {:induction false} DecisionPages(table: seq<Decision>, p: ListParams, limit: nat, pages: seq<seq<Decision>>)
    requires DecisionKeys(table)
    requires Paged(NewerDecision, S.Filter(Listed(p), table), limit, pages)
    ensures Concat(pages) == S.Sort(NewerDecision, S.Filter(Listed(p), table))
    ensures NewestFirst(Concat(pages))
    ensures forall d :: multiset(Concat(pages))[d] ==
              if (p.ws.Some? ==> d.ws == p.ws) && (p.project.Some? ==> d.project == p.project)
                 && (p.repo.Some? ==> d.repo == p.repo) && (p.includeAuto || d.source == "manual")
              then multiset(table)[d] else 0
  {
    NewerIsStrictWeakOrder();
    ListFacts(NewerDecision, Listed(p), table);
    var rows := S.Filter(Listed(p), table);
    forall x, y | x in rows && y in rows && x != y ensures NewerDecision(x, y) || NewerDecision(y, x) {
      IdsAreOrdered(x.id, y.id, x.id);
    }
    PagesMakeTheList(NewerDecision, rows, limit, pages);
  }

  function ActiveGoals(ws: Option<Uuid>): Goal -> bool {
    (g: Goal) => g.status == ACTIVE && Admits(ws, g.ws)
  }

  lemma GoalsAreTold(rows: seq<Goal>)
    requires GoalKeys(rows)
    ensures S.TotalOn(SoonerGoal, rows)
  {
    forall x, y | x in rows && y in rows && x != y ensures SoonerGoal(x, y) || SoonerGoal(y, x) {
      IdsAreOrdered(x.id, y.id, x.id);
    }
  }

  /** Goals without a due date come last, told apart by id. */
  lemma {:induction false} GoalPages(table: seq<Goal>, ws: Option<Uuid>, limit: nat, pages: seq<seq<Goal>>)
    requires GoalKeys(table)
    requires Paged(SoonerGoal, S.Filter(ActiveGoals(ws), table), limit, pages)
    ensures Concat(pages) == S.Sort(SoonerGoal, S.Filter(ActiveGoals(ws), table))
    ensures SoonestFirst(Concat(pages))
    ensures forall g :: multiset(Concat(pages))[g] ==
              if g.status == "active" && (ws.Some? ==> g.ws == ws) then multiset(table)[g] else 0
  {
    SoonerIsStrictWeakOrder();
    ListFacts(SoonerGoal, ActiveGoals(ws), table);
    var rows := S.Filter(ActiveGoals(ws), table);
    GoalsAreTold(rows);
    PagesMakeTheList(SoonerGoal, rows, limit, pages);
    SortedIsSoonestFirst(S.Sort(SoonerGoal, rows));
  }

  function ActiveProjects(ws: Option<Uuid>): Project -> bool {
    (p: Project) => p.status == ACTIVE && Admits(ws, p.ws)
  }

  lemma {:induction false} ProjectPages(table: seq<Project>, ws: Option<Uuid>, limit: nat, pages: seq<seq<Project>>)
    requires ProjectKeys(table)
    requires Paged(RanksAboveProject, S.Filter(ActiveProjects(ws), table), limit, pages)
    ensures Concat(pages) == S.Sort(RanksAboveProject, S.Filter(ActiveProjects(ws), table))
    ensures UrgentFirst(Concat(pages))
    ensures forall r :: multiset(Concat(pages))[r] ==
              if r.status == "active" && (ws.Some? ==> r.ws == ws) then multiset(table)[r] else 0
  {
    RanksAboveIsStrictWeakOrder();
    ListFacts(RanksAboveProject, ActiveProjects(ws), table);
    var rows := S.Filter(ActiveProjects(ws), table);
    forall x, y | x in rows && y in rows && x != y ensures RanksAboveProject(x, y) || RanksAboveProject(y, x) {
      IdsAreOrdered(x.id, y.id, x.id);
    }
    PagesMakeTheList(RanksAboveProject, rows, limit, pages);
  }

  function OfTask(task: Uuid, ws: Option<Uuid>): Decision -> bool {
    (d: Decision) => d.task == Some(task) && Admits(ws, d.ws)
  }

  /** The query by task orders by creation time alone and has a limit but no
      offset: which decisions it returns is fixed exactly when the last one shown
      and the first one left out were created at different times. */
  lemma {:induction false} TaskQueryIsDeterminedIff(table: seq<Decision>, task: Uuid, ws: Option<Uuid>, limit: nat)
    requires Distinct(table) && 0 < limit < |S.Filter(OfTask(task, ws), table)|
    ensures var rows := S.Filter(OfTask(task, ws), table);
            var sorted := S.Sort(NewerOnly, rows);
            && |sorted| == |rows|
            && (forall d :: multiset(sorted)[d] ==
                 if d.task == Some(task) && (ws.Some? ==> d.ws == ws) then multiset(table)[d] else 0)
            && (forall i, j :: 0 <= i < j < |sorted| ==> sorted[i].createdAt >= sorted[j].createdAt)
            && (TopIsDetermined(NewerOnly, rows, limit) <==> sorted[limit - 1].createdAt > sorted[limit].createdAt)
  {
    assert S.StrictWeakOrder(NewerOnly);
    ListFacts(NewerOnly, OfTask(task, ws), table);
    S.FilterDistinct(OfTask(task, ws), table);
    TopIsDeterminedIff(NewerOnly, S.Filter(OfTask(task, ws), table), limit);
  }
}

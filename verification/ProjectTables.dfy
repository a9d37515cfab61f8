/** The tables a project delete touches, as one keyed store, and the statements
    it runs on them. No foreign keys: a reference is a column value and nothing
    else keeps it pointing at a row. */
module ProjectTables {
  import opened Ids

  datatype Table =
    | Projects | Tasks
    | WorkSessionTasks | CompletionCandidates
    | WorkSessions | VisionItems | Decisions | KnowledgeItems
    | ActivityLog | SessionHandoffs | ProceduralMemories

  datatype Key =
    | RowKey(table: Table, id: Uuid)
    | TombstoneKey(deletion: Uuid, kind: Table, entity: Uuid)
    | AuditKey(deletion: Uuid)

  /** `task` is the column of the table that names a task: `task_id`,
      `current_task_id` or `promoted_task_id`. */
  datatype Row =
    | Row(ws: Option<Uuid>, project: Option<Uuid>, task: Option<Uuid>, status: string, updatedAt: int, body: string)
    | Tombstone(deletedBy: string, deletedAt: int, payload: Row)
    | Audit(actor: string, deleted: Uuid, taskCount: nat)

  type Db = map<Key, Row>

  function Get(db: Db, k: Key): Option<Row> {
    if k in db then Some(db[k]) else None
  }

  predicate InScope(ws: Option<Uuid>, r: Row) {
    r.Row? && (ws == None || r.ws == ws)
  }

  /** `WHERE project_id = p AND (ws IS NULL OR workspace_id = ws)` on tasks. */
  predicate IsTaskOf(db: Db, p: Uuid, ws: Option<Uuid>, t: Uuid) {
    var k := RowKey(Tasks, t);
    k in db && InScope(ws, db[k]) && db[k].project == Some(p)
  }

  function TasksOf(db: Db, p: Uuid, ws: Option<Uuid>): set<Uuid> {
    set k | k in db && k.RowKey? && k.table == Tasks && IsTaskOf(db, p, ws, k.id) :: k.id
  }

  predicate ProjectVisible(db: Db, p: Uuid, ws: Option<Uuid>) {
    var k := RowKey(Projects, p);
    k in db && InScope(ws, db[k])
  }

  // ----- writes of other connections -----

  /** One row written or deleted by another connection's committed transaction. */
  datatype Write = Write(key: Key, row: Option<Row>)

  function Put(db: Db, w: Write): Db {
    if w.row.Some? then db[w.key := w.row.value] else db - {w.key}
  }

  function Replay(db: Db, ws: seq<Write>): Db {
    if |ws| == 0 then db else Put(Replay(db, ws[..|ws| - 1]), ws[|ws| - 1])
  }

  /** What the last write to `k` leaves there. */
  function LastWrite(ws: seq<Write>, k: Key, before: Option<Row>): Option<Row> {
    if |ws| == 0 then before
    else if ws[|ws| - 1].key == k then ws[|ws| - 1].row
    else LastWrite(ws[..|ws| - 1], k, before)
  }

  ghost predicate NotWritten(ws: seq<Write>, k: Key) {
    forall w :: w in ws ==> w.key != k
  }

  lemma {:induction false} ReplayGet(db: Db, ws: seq<Write>, k: Key)
    ensures Get(Replay(db, ws), k) == LastWrite(ws, k, Get(db, k))
    decreases |ws|
  {
    if |ws| > 0 { ReplayGet(db, ws[..|ws| - 1], k); }
  }

  lemma {:induction false} ReplayNotWritten(db: Db, ws: seq<Write>, k: Key)
    requires NotWritten(ws, k)
    ensures Get(Replay(db, ws), k) == Get(db, k)
    decreases |ws|
  {
    if |ws| > 0 {
      assert ws[|ws| - 1] in ws;
      ReplayNotWritten(db, ws[..|ws| - 1], k);
    }
  }

  lemma {:induction false} ReplayConcat(db: Db, a: seq<Write>, b: seq<Write>)
    ensures Replay(db, a + b) == Replay(Replay(db, a), b)
    decreases |b|
  {
    if |b| == 0 {
      assert a + b == a;
    } else {
      assert (a + b)[..|a + b| - 1] == a + b[..|b| - 1];
      ReplayConcat(db, a, b[..|b| - 1]);
    }
  }

  // ----- the cleanup statements -----

  datatype Step =
    | PruneTombstones(cutoff: int)
    | DropTaskRefs(table: Table)
    | ClearTaskRefs(table: Table)
    | ReopenPromoted
    | ClearProjectRefs(table: Table)

  /** The statement's WHERE clause on one row. */
  predicate Matches(st: Step, tasks: set<Uuid>, p: Uuid, k: Key, r: Row) {
    match st
    case PruneTombstones(cutoff) => k.TombstoneKey? && r.Tombstone? && r.deletedAt < cutoff
    case DropTaskRefs(t) => k.RowKey? && k.table == t && r.Row? && r.task.Some? && r.task.value in tasks
    case ClearTaskRefs(t) => k.RowKey? && k.table == t && r.Row? && r.task.Some? && r.task.value in tasks
    case ReopenPromoted => k.RowKey? && k.table == VisionItems && r.Row? && r.task.Some? && r.task.value in tasks
    case ClearProjectRefs(t) => k.RowKey? && k.table == t && r.Row? && r.project == Some(p)
  }

  /** What the statement makes of one row; `None` is a deleted row. */
  function StepRow(st: Step, tasks: set<Uuid>, p: Uuid, now: int, k: Key, r: Row): Option<Row> {
    if !Matches(st, tasks, p, k, r) then Some(r)
    else
      match st
      case PruneTombstones(_) => None
      case DropTaskRefs(_) => None
      case ClearTaskRefs(t) => Some(if t == WorkSessions then r.(task := None, updatedAt := now) else r.(task := None))
      case ReopenPromoted => Some(r.(task := None, status := "open"))
      case ClearProjectRefs(_) => Some(r.(project := None))
  }

  function StepOpt(st: Step, tasks: set<Uuid>, p: Uuid, now: int, k: Key, r: Option<Row>): Option<Row> {
    if r.None? then None else StepRow(st, tasks, p, now, k, r.value)
  }

  function ApplyStep(st: Step, tasks: set<Uuid>, p: Uuid, now: int, db: Db): (r: Db)
    ensures forall k :: Get(r, k) == StepOpt(st, tasks, p, now, k, Get(db, k))
  {
    map k | k in db && StepRow(st, tasks, p, now, k, db[k]).Some? :: StepRow(st, tasks, p, now, k, db[k]).value
  }

  function Matched(st: Step, tasks: set<Uuid>, p: Uuid, db: Db): set<Key> {
    set k | k in db && Matches(st, tasks, p, k, db[k])
  }

  /** The reference cleanups in the order the orchestration lists them. */
  const CLEANUPS: seq<Step> := [
    DropTaskRefs(WorkSessionTasks),
    ClearTaskRefs(WorkSessions),
    DropTaskRefs(CompletionCandidates),
    ReopenPromoted,
    ClearTaskRefs(Decisions),
    ClearTaskRefs(KnowledgeItems),
    ClearProjectRefs(ActivityLog),
    ClearProjectRefs(Decisions),
    ClearProjectRefs(KnowledgeItems),
    ClearProjectRefs(SessionHandoffs),
    ClearProjectRefs(WorkSessions),
    ClearProjectRefs(VisionItems),
    ClearProjectRefs(ProceduralMemories)
  ]

  /** A row after a list of statements. */
  function After(steps: seq<Step>, tasks: set<Uuid>, p: Uuid, now: int, k: Key, r: Option<Row>): Option<Row> {
    if |steps| == 0 then r
    else StepOpt(steps[|steps| - 1], tasks, p, now, k, After(steps[..|steps| - 1], tasks, p, now, k, r))
  }

  // ----- what the cleanups are for, stated without them -----

  predicate Joins(t: Table) {
    t == WorkSessionTasks || t == CompletionCandidates
  }

  predicate NamesTask(t: Table) {
    t == WorkSessions || t == VisionItems || t == Decisions || t == KnowledgeItems
  }

  predicate NamesProject(t: Table) {
    t != Projects && t != Tasks && !Joins(t)
  }

  predicate RefersToTask(tasks: set<Uuid>, k: Key, r: Row) {
    k.RowKey? && (Joins(k.table) || NamesTask(k.table)) && r.Row? && r.task.Some? && r.task.value in tasks
  }

  predicate RefersToProject(p: Uuid, k: Key, r: Row) {
    k.RowKey? && NamesProject(k.table) && r.Row? && r.project == Some(p)
  }

  /** The row a delete should leave: join rows of the tasks go, every other
      reference to the tasks or the project is cleared, all else stays. */
  function Scrub(tasks: set<Uuid>, p: Uuid, now: int, k: Key, r: Row): Option<Row> {
    var task := RefersToTask(tasks, k, r);
    if task && Joins(k.table) then None
    else
      var r1 := if task then r.(task := None) else r;
      var r2 := if task && k.table == VisionItems then r1.(status := "open") else r1;
      var r3 := if task && k.table == WorkSessions then r2.(updatedAt := now) else r2;
      Some(if RefersToProject(p, k, r) then r3.(project := None) else r3)
  }

  lemma AfterSnoc(steps: seq<Step>, st: Step, tasks: set<Uuid>, p: Uuid, now: int, k: Key, r: Option<Row>)
    ensures After(steps + [st], tasks, p, now, k, r) == StepOpt(st, tasks, p, now, k, After(steps, tasks, p, now, k, r))
  {
    assert (steps + [st])[..|steps|] == steps;
  }

  ghost function TaskStage(t: Table): nat {
    match t
    case WorkSessionTasks => 0
    case WorkSessions => 1
    case CompletionCandidates => 2
    case VisionItems => 3
    case Decisions => 4
    case KnowledgeItems => 5
    case _ => 99
  }

  ghost function ProjectStage(t: Table): nat {
    match t
    case ActivityLog => 6
    case Decisions => 7
    case KnowledgeItems => 8
    case SessionHandoffs => 9
    case WorkSessions => 10
    case VisionItems => 11
    case ProceduralMemories => 12
    case _ => 99
  }

  /** The scrub restricted to the tables the first `n` cleanups have reached. */
  ghost function ScrubUpTo(n: nat, tasks: set<Uuid>, p: Uuid, now: int, k: Key, r: Row): Option<Row> {
    var task := RefersToTask(tasks, k, r) && TaskStage(k.table) < n;
    var project := RefersToProject(p, k, r) && ProjectStage(k.table) < n;
    if task && Joins(k.table) then None
    else
      var r1 := if task then r.(task := None) else r;
      var r2 := if task && k.table == VisionItems then r1.(status := "open") else r1;
      var r3 := if task && k.table == WorkSessions then r2.(updatedAt := now) else r2;
      Some(if project then r3.(project := None) else r3)
  }

  lemma ScrubNextTask(st: Step, t: Table, tasks: set<Uuid>, p: Uuid, now: int, k: Key, r: Row)
    requires st == (if Joins(t) then DropTaskRefs(t) else if t == VisionItems then ReopenPromoted else ClearTaskRefs(t))
    requires TaskStage(t) < 99
    ensures StepOpt(st, tasks, p, now, k, ScrubUpTo(TaskStage(t), tasks, p, now, k, r)) ==
            ScrubUpTo(TaskStage(t) + 1, tasks, p, now, k, r)
  {
    if k.RowKey? {
      assert TaskStage(k.table) == TaskStage(t) <==> k.table == t;
    }
  }

  lemma ScrubNextProject(t: Table, tasks: set<Uuid>, p: Uuid, now: int, k: Key, r: Row)
    requires ProjectStage(t) < 99
    ensures StepOpt(ClearProjectRefs(t), tasks, p, now, k, ScrubUpTo(ProjectStage(t), tasks, p, now, k, r)) ==
            ScrubUpTo(ProjectStage(t) + 1, tasks, p, now, k, r)
  {
    if k.RowKey? {
      assert ProjectStage(k.table) == ProjectStage(t) <==> k.table == t;
    }
  }

  lemma ScrubNext(n: nat, tasks: set<Uuid>, p: Uuid, now: int, k: Key, r: Row)
    requires n < |CLEANUPS|
    ensures StepOpt(CLEANUPS[n], tasks, p, now, k, ScrubUpTo(n, tasks, p, now, k, r)) ==
            ScrubUpTo(n + 1, tasks, p, now, k, r)
  {
    match CLEANUPS[n]
    case PruneTombstones(_) => assert false;
    case DropTaskRefs(t) => ScrubNextTask(CLEANUPS[n], t, tasks, p, now, k, r);
    case ClearTaskRefs(t) => ScrubNextTask(CLEANUPS[n], t, tasks, p, now, k, r);
    case ReopenPromoted => ScrubNextTask(CLEANUPS[n], VisionItems, tasks, p, now, k, r);
    case ClearProjectRefs(t) => ScrubNextProject(t, tasks, p, now, k, r);
  }

  lemma {:induction false} AfterIsScrubUpTo(n: nat, tasks: set<Uuid>, p: Uuid, now: int, k: Key, r: Row)
    requires n <= |CLEANUPS|
    ensures After(CLEANUPS[..n], tasks, p, now, k, Some(r)) == ScrubUpTo(n, tasks, p, now, k, r)
    decreases n
  {
    if n > 0 {
      AfterIsScrubUpTo(n - 1, tasks, p, now, k, r);
      ScrubNext(n - 1, tasks, p, now, k, r);
      assert CLEANUPS[..n] == CLEANUPS[..n - 1] + [CLEANUPS[n - 1]];
      AfterSnoc(CLEANUPS[..n - 1], CLEANUPS[n - 1], tasks, p, now, k, Some(r));
    }
  }

  /** The thirteen statements in sequence are one simultaneous scrub. */
  lemma CleanupsAreScrub(tasks: set<Uuid>, p: Uuid, now: int, k: Key, r: Row)
    ensures After(CLEANUPS, tasks, p, now, k, Some(r)) == Scrub(tasks, p, now, k, r)
  {
    AfterIsScrubUpTo(|CLEANUPS|, tasks, p, now, k, r);
    assert CLEANUPS[..|CLEANUPS|] == CLEANUPS;
  }

  /** A scrubbed row points at neither the project nor one of the tasks, and a
      row that pointed at neither is left exactly as it was. */
  lemma ScrubClearsAndKeeps(tasks: set<Uuid>, p: Uuid, now: int, k: Key, r: Row)
    ensures var s := Scrub(tasks, p, now, k, r);
            && (s.Some? ==> !RefersToTask(tasks, k, s.value) && !RefersToProject(p, k, s.value))
            && (!RefersToTask(tasks, k, r) && !RefersToProject(p, k, r) ==> s == Some(r))
  {
  }
}

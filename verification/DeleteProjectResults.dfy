/** What a committed delete means for the rest of the store. */
module DeleteProjectResults {
  import opened Ids
  import opened Seqs
  import opened ProjectTables
  import opened DeleteProject
  import D = TaskSetDigest

  predicate TaskNames(db: Db, p: Uuid, t: Uuid) {
    var k := RowKey(Tasks, t);
    k in db && db[k].Row? && db[k].project == Some(p)
  }

  /** No reference column of a row nobody else wrote still points at the project
      or at a deleted task, and such a row that pointed at neither is unchanged. */
  lemma NothingDangles(a: DeleteProjectAdapter, before: Db, author: string, at: int, project: Option<Row>,
                       rows: map<Uuid, Row>, k: Key)
    requires Committed(a, before, author, at, project, rows)
    requires NotWritten(a.applied, k) && k.RowKey?
    ensures k in a.committed ==>
              !RefersToTask(SetOf(a.locked), k, a.committed[k]) && !RefersToProject(a.id, k, a.committed[k])
    ensures k in before && !RefersToTask(SetOf(a.locked), k, before[k]) && !RefersToProject(a.id, k, before[k])
            && !(k.table == Tasks && k.id in a.locked) && !(k == RowKey(Projects, a.id) && InScope(a.ws, before[k]))
            ==> Get(a.committed, k) == Some(before[k])
    ensures k !in before ==> k !in a.committed
    ensures k == RowKey(Projects, a.id) && k in before && InScope(a.ws, before[k]) ==> k !in a.committed
  {
    var want := Expected(SetOf(a.locked), a.id, a.ws, a.now, at - TOMBSTONE_RETENTION, k, Get(before, k));
    assert !a.Own(k);
    assert Get(a.committed, k) == want;
    if k in before {
      ScrubClearsAndKeeps(SetOf(a.locked), a.id, a.now, k, before[k]);
    }
  }

  /** The tasks that still name the project after a committed delete are exactly
      the ones outside the locked set that the other writers left in it. */
  lemma WhoIsLeftBehind(a: DeleteProjectAdapter, before: Db, author: string, at: int, project: Option<Row>,
                        rows: map<Uuid, Row>, t: Uuid)
    requires Committed(a, before, author, at, project, rows)
    ensures TaskNames(a.committed, a.id, t) <==> t !in a.locked && TaskNames(Replay(before, a.applied), a.id, t)
    ensures TaskNames(a.committed, a.id, t) <==>
              t !in a.locked && TaskNames(Replay(before, a.Offered(a.clock)), a.id, t)
  {
    assert Get(a.committed, RowKey(Tasks, t))
      == (if t in a.locked then None else Get(Replay(before, a.applied), RowKey(Tasks, t)));
  }

  /** Run alone, a delete leaves a task naming the project exactly when that task
      belongs to another workspace than the store. */
  lemma AloneLeavesForeignTasks(a: DeleteProjectAdapter, before: Db, author: string, at: int, project: Option<Row>,
                                rows: map<Uuid, Row>, t: Uuid)
    requires Committed(a, before, author, at, project, rows)
    requires a.applied == [] && SetOf(a.locked) == TasksOf(before, a.id, a.ws)
    ensures TaskNames(a.committed, a.id, t) <==> TaskNames(before, a.id, t) && !InScope(a.ws, before[RowKey(Tasks, t)])
  {
    WhoIsLeftBehind(a, before, author, at, project, rows, t);
    TasksOfMembers(before, a.id, a.ws);
    assert t in SetOf(a.locked) <==> t in a.locked;
  }

  // ----- references written while the delete runs -----

  predicate NamesATask(t: Table) {
    Joins(t) || NamesTask(t)
  }

  /** The call that clears the project references of a table. */
  ghost function ProjectCall(d: Dialect, t: Table): nat {
    FirstCleanup(d) + ProjectStage(t)
  }

  /** The call that drops or clears the task references of a table. */
  ghost function TaskCall(d: Dialect, t: Table): nat {
    FirstCleanup(d) + TaskStage(t)
  }

  /** The last call that looks at the table. */
  ghost function LastCall(d: Dialect, t: Table): nat {
    if NamesProject(t) then ProjectCall(d, t) else TaskCall(d, t)
  }

  ghost predicate NamesTheProject(a: DeleteProjectAdapter, k: Key, r: Option<Row>) {
    r.Some? && RefersToProject(a.id, k, r.value)
  }

  ghost predicate NamesTasks(tasks: set<Uuid>, k: Key, r: Option<Row>) {
    r.Some? && RefersToTask(tasks, k, r.value)
  }

  /** Call `n` locks the row the others alone have made by then. */
  ghost predicate CaughtAt(a: DeleteProjectAdapter, tasks: set<Uuid>, k: Key, n: nat) {
    var r := Get(a.World(n), k);
    r.Some? && Catches(TouchOf(a.dialect, n), tasks, a.id, k, r.value)
  }

  /** No call up to `n` does. */
  ghost predicate Missed(a: DeleteProjectAdapter, tasks: set<Uuid>, k: Key, n: nat) {
    forall m :: 0 < m <= n ==> !CaughtAt(a, tasks, k, m)
  }

  lemma MissedNext(a: DeleteProjectAdapter, tasks: set<Uuid>, k: Key, m: nat, n: nat)
    requires n == m + 1
    ensures Missed(a, tasks, k, n) <==> Missed(a, tasks, k, m) && !CaughtAt(a, tasks, k, n)
  {
  }

  lemma SeenIs(a: DeleteProjectAdapter, tasks: set<Uuid>, k: Key, m: nat, n: nat, touch: Touch)
    requires n == m + 1 && TouchOf(a.dialect, n) == touch
    ensures a.Seen(tasks, k, n) == Touched(touch, tasks, a.id, a.now, k, a.Found(a.Seen(tasks, k, m), k, n))
  {
  }

  /** A statement changes only rows it catches. */
  lemma TouchedCatches(touch: Touch, tasks: set<Uuid>, p: Uuid, now: int, k: Key, s: Sight)
    ensures var after := Touched(touch, tasks, p, now, k, s);
            && (after.held <==> s.held || (s.row.Some? && Catches(touch, tasks, p, k, s.row.value)))
            && (!after.held ==> after == s)
  {
  }

  lemma SeenNext(a: DeleteProjectAdapter, tasks: set<Uuid>, k: Key, m: nat, n: nat)
    requires n == m + 1
    ensures a.Seen(tasks, k, n).held <==> a.Seen(tasks, k, m).held || CaughtAt(a, tasks, k, n)
    ensures !a.Seen(tasks, k, n).held ==> a.Seen(tasks, k, n).row == Get(a.World(n), k)
  {
    SeenIs(a, tasks, k, m, n, TouchOf(a.dialect, n));
    TouchedCatches(TouchOf(a.dialect, n), tasks, a.id, a.now, k, a.Found(a.Seen(tasks, k, m), k, n));
  }

  lemma {:induction false} MissedIsFree(a: DeleteProjectAdapter, tasks: set<Uuid>, k: Key, n: nat)
    ensures a.Seen(tasks, k, n).held <==> !Missed(a, tasks, k, n)
    ensures Missed(a, tasks, k, n) ==> a.Seen(tasks, k, n) == Sight(false, Get(a.World(n), k))
    decreases n
  {
    if n > 0 {
      var m := n - 1;
      MissedIsFree(a, tasks, k, m);
      SeenNext(a, tasks, k, m, n);
      MissedNext(a, tasks, k, m, n);
    }
  }

  /** Between `m` and `n` no call looks at the row. */
  lemma {:induction false} Unwatched(a: DeleteProjectAdapter, tasks: set<Uuid>, k: Key, m: nat, n: nat)
    requires m <= n && forall i, r :: m < i <= n ==> !Catches(TouchOf(a.dialect, i), tasks, a.id, k, r)
    ensures a.Seen(tasks, k, n) == if m == n then a.Seen(tasks, k, m) else a.Found(a.Seen(tasks, k, m), k, n)
    decreases n
  {
    if m < n {
      Unwatched(a, tasks, k, m, n - 1);
      var before := a.Found(a.Seen(tasks, k, n - 1), k, n);
      if before.row.Some? { assert !Catches(TouchOf(a.dialect, n), tasks, a.id, k, before.row.value); }
    }
  }

  lemma CallsOfATable(d: Dialect, tasks: set<Uuid>, p: Uuid, k: Key, n: nat, r: Row)
    requires IsRef(k) && n >= FirstCleanup(d) && Catches(TouchOf(d, n), tasks, p, k, r)
    ensures (NamesProject(k.table) && n == ProjectCall(d, k.table))
              || (NamesATask(k.table) && n == TaskCall(d, k.table))
  {
  }

  lemma StageStatements(t: Table)
    ensures NamesProject(t) ==> ProjectStage(t) < |CLEANUPS| && CLEANUPS[ProjectStage(t)] == ClearProjectRefs(t)
    ensures Joins(t) ==> TaskStage(t) < |CLEANUPS| && CLEANUPS[TaskStage(t)] == DropTaskRefs(t)
    ensures NamesTask(t) ==> TaskStage(t) < ProjectStage(t) && NamesProject(t)
    ensures NamesTask(t) ==> CLEANUPS[TaskStage(t)] == if t == VisionItems then ReopenPromoted else ClearTaskRefs(t)
  {
  }

  /** The cleanup that drops or clears the task references of a table. */
  predicate ClearsTasks(touch: Touch, t: Table) {
    && touch.Clean?
    && (Joins(t) ==> touch.step == DropTaskRefs(t))
    && (NamesTask(t) ==> touch.step == if t == VisionItems then ReopenPromoted else ClearTaskRefs(t))
  }

  /** What each of the two calls does. */
  lemma DueForTable(d: Dialect, t: Table)
    ensures NamesProject(t) ==> TouchOf(d, ProjectCall(d, t)) == Clean(ClearProjectRefs(t))
    ensures NamesATask(t) ==> ClearsTasks(TouchOf(d, TaskCall(d, t)), t)
    ensures NamesTask(t) ==> NamesProject(t) && TaskCall(d, t) < ProjectCall(d, t)
  {
    StageStatements(t);
    if NamesProject(t) { CleanupDue(d, ProjectStage(t)); }
    if NamesATask(t) { CleanupDue(d, TaskStage(t)); }
  }

  lemma UnwatchedAfter(a: DeleteProjectAdapter, tasks: set<Uuid>, k: Key, m: nat, n: nat)
    requires IsRef(k) && FirstCleanup(a.dialect) <= m <= n
    requires NamesProject(k.table) ==> !(m < ProjectCall(a.dialect, k.table) <= n)
    requires NamesATask(k.table) ==> !(m < TaskCall(a.dialect, k.table) <= n)
    ensures a.Seen(tasks, k, n) == if m == n then a.Seen(tasks, k, m) else a.Found(a.Seen(tasks, k, m), k, n)
  {
    forall i, r | m < i <= n ensures !Catches(TouchOf(a.dialect, i), tasks, a.id, k, r) {
      if Catches(TouchOf(a.dialect, i), tasks, a.id, k, r) { CallsOfATable(a.dialect, tasks, a.id, k, i, r); }
    }
    Unwatched(a, tasks, k, m, n);
  }

  /** The project cleanup of a table clears the reference and keeps the task column. */
  lemma ProjectCleanup(a: DeleteProjectAdapter, tasks: set<Uuid>, k: Key, s: Sight)
    requires k.RowKey? && NamesProject(k.table)
    ensures var after := Touched(Clean(ClearProjectRefs(k.table)), tasks, a.id, a.now, k, s);
            && !NamesTheProject(a, k, after.row)
            && (NamesTasks(tasks, k, after.row) <==> NamesTasks(tasks, k, s.row))
            && (after.held <==> s.held || NamesTheProject(a, k, s.row))
  {
  }

  lemma TaskCleanup(a: DeleteProjectAdapter, tasks: set<Uuid>, k: Key, touch: Touch, s: Sight)
    requires k.RowKey? && NamesATask(k.table) && ClearsTasks(touch, k.table)
    ensures var after := Touched(touch, tasks, a.id, a.now, k, s);
            && !NamesTasks(tasks, k, after.row)
            && (after.held <==> s.held || NamesTasks(tasks, k, s.row))
  {
  }

  /** A reference to the project stays exactly when the row carries one at the
      end and no call up to the one that clears its table caught the row. */
  lemma ProjectRefStays(a: DeleteProjectAdapter, tasks: set<Uuid>, k: Key, n: nat)
    requires k.RowKey? && NamesProject(k.table) && n >= LastCall(a.dialect, k.table)
    ensures NamesTheProject(a, k, a.Seen(tasks, k, n).row) <==>
              && Missed(a, tasks, k, ProjectCall(a.dialect, k.table))
              && NamesTheProject(a, k, Get(a.World(n), k))
  {
    var last := ProjectCall(a.dialect, k.table);
    DueForTable(a.dialect, k.table);
    MissedIsFree(a, tasks, k, last);
    UnwatchedAfter(a, tasks, k, last, n);
    var before := last - 1;
    SeenIs(a, tasks, k, before, last, Clean(ClearProjectRefs(k.table)));
    ProjectCleanup(a, tasks, k, a.Found(a.Seen(tasks, k, before), k, last));
  }

  /** The call at which the row is frozen, if the project cleanup of its table
      finds a reference, and the last one otherwise. */
  ghost function FrozenAt(a: DeleteProjectAdapter, k: Key, n: nat): nat
    requires k.RowKey?
  {
    var at := ProjectCall(a.dialect, k.table);
    if NamesProject(k.table) && NamesTheProject(a, k, Get(a.World(at), k)) then at else n
  }

  lemma TaskRefAtProjectCall(a: DeleteProjectAdapter, tasks: set<Uuid>, k: Key, n: nat)
    requires k.RowKey? && NamesTask(k.table) && n >= LastCall(a.dialect, k.table)
    requires !NamesTasks(tasks, k, a.Seen(tasks, k, TaskCall(a.dialect, k.table)).row)
    ensures NamesTasks(tasks, k, a.Seen(tasks, k, n).row) <==>
              && !a.Seen(tasks, k, TaskCall(a.dialect, k.table)).held
              && NamesTasks(tasks, k, Get(a.World(FrozenAt(a, k, n)), k))
  {
    DueForTable(a.dialect, k.table);
    var cleared, last := TaskCall(a.dialect, k.table), ProjectCall(a.dialect, k.table);
    var before := last - 1;
    UnwatchedAfter(a, tasks, k, cleared, before);
    UnwatchedAfter(a, tasks, k, last, n);
    SeenIs(a, tasks, k, before, last, Clean(ClearProjectRefs(k.table)));
    ProjectCleanup(a, tasks, k, a.Found(a.Seen(tasks, k, before), k, last));
  }

  /** A reference to a deleted task stays exactly when no call up to the one that
      clears its table caught the row, and the row carries one at the end, or
      where the project cleanup of the table then caught and froze it. */
  lemma TaskRefStays(a: DeleteProjectAdapter, tasks: set<Uuid>, k: Key, n: nat)
    requires k.RowKey? && NamesATask(k.table) && n >= LastCall(a.dialect, k.table)
    ensures NamesTasks(tasks, k, a.Seen(tasks, k, n).row) <==>
              && Missed(a, tasks, k, TaskCall(a.dialect, k.table))
              && NamesTasks(tasks, k, Get(a.World(FrozenAt(a, k, n)), k))
  {
    var cleared := TaskCall(a.dialect, k.table);
    DueForTable(a.dialect, k.table);
    MissedIsFree(a, tasks, k, cleared);
    var before := cleared - 1;
    SeenIs(a, tasks, k, before, cleared, TouchOf(a.dialect, cleared));
    TaskCleanup(a, tasks, k, TouchOf(a.dialect, cleared), a.Found(a.Seen(tasks, k, before), k, cleared));
    if Joins(k.table) {
      UnwatchedAfter(a, tasks, k, cleared, n);
    } else {
      TaskRefAtProjectCall(a, tasks, k, n);
    }
  }

  /** After a committed delete a row refers to the project exactly when it was made
      to after the call that clears the project references of its table: no call
      up to that one caught it, and at the end it carries a reference. For a
      deleted task the same holds of the call that clears those references, up to
      the moment the project cleanup may freeze the row. */
  lemma WhichReferencesStay(a: DeleteProjectAdapter, k: Key)
    requires a.RefsFollow() && a.clock == DeleteCall(a.dialect) + 3 && IsRef(k)
    ensures var tasks := SetOf(a.locked); var t, n := k.table, a.clock;
            && (NamesProject(t) ==>
                 (NamesTheProject(a, k, Get(a.committed, k)) <==>
                   && Missed(a, tasks, k, ProjectCall(a.dialect, t))
                   && NamesTheProject(a, k, Get(a.World(n), k))))
            && (NamesATask(t) ==>
                 (NamesTasks(tasks, k, Get(a.committed, k)) <==>
                   && Missed(a, tasks, k, TaskCall(a.dialect, t))
                   && NamesTasks(tasks, k, Get(a.World(FrozenAt(a, k, n)), k))))
  {
    StageStatements(k.table);
    if NamesProject(k.table) { ProjectRefStays(a, SetOf(a.locked), k, a.clock); }
    if NamesATask(k.table) { TaskRefStays(a, SetOf(a.locked), k, a.clock); }
  }

  lemma ProjectCallMissed(a: DeleteProjectAdapter, tasks: set<Uuid>, k: Key, n: nat)
    requires n > 0 && Missed(a, tasks, k, n) && k.RowKey? && NamesProject(k.table)
    requires TouchOf(a.dialect, n) == Clean(ClearProjectRefs(k.table))
    ensures !NamesTheProject(a, k, Get(a.World(n), k))
  {
    assert !CaughtAt(a, tasks, k, n);
  }

  lemma TaskCallMissed(a: DeleteProjectAdapter, tasks: set<Uuid>, k: Key, n: nat)
    requires n > 0 && Missed(a, tasks, k, n) && k.RowKey? && NamesATask(k.table)
    requires ClearsTasks(TouchOf(a.dialect, n), k.table)
    ensures !NamesTasks(tasks, k, Get(a.World(n), k))
  {
    assert !CaughtAt(a, tasks, k, n);
  }

  /** Each row of the others' making that is left with a reference had none when
      its table was cleared. */
  lemma StayingMeansLate(a: DeleteProjectAdapter, k: Key)
    requires a.RefsFollow() && a.clock == DeleteCall(a.dialect) + 3 && IsRef(k)
    ensures NamesTheProject(a, k, Get(a.committed, k)) ==>
              !NamesTheProject(a, k, Get(a.World(ProjectCall(a.dialect, k.table)), k))
    ensures NamesTasks(SetOf(a.locked), k, Get(a.committed, k)) ==>
              !NamesTasks(SetOf(a.locked), k, Get(a.World(TaskCall(a.dialect, k.table)), k))
  {
    var tasks := SetOf(a.locked);
    WhichReferencesStay(a, k);
    DueForTable(a.dialect, k.table);
    if NamesTheProject(a, k, Get(a.committed, k)) { ProjectCallMissed(a, tasks, k, ProjectCall(a.dialect, k.table)); }
    if NamesTasks(tasks, k, Get(a.committed, k)) { TaskCallMissed(a, tasks, k, TaskCall(a.dialect, k.table)); }
  }

  lemma {:induction false} SqliteOffered(a: DeleteProjectAdapter, n: nat)
    requires a.dialect == Sqlite && n > 0
    ensures a.Offered(n) == a.Offered(1)
    decreases n
  {
    if n > 1 { SqliteOffered(a, n - 1); }
  }

  /** On SQLite nobody writes while the delete runs, and no reference stays. */
  lemma SqliteLeavesNoReference(a: DeleteProjectAdapter, k: Key)
    requires a.dialect == Sqlite && a.RefsFollow() && a.clock == DeleteCall(Sqlite) + 3 && IsRef(k)
    ensures !NamesTheProject(a, k, Get(a.committed, k)) && !NamesTasks(SetOf(a.locked), k, Get(a.committed, k))
  {
    WhichReferencesStay(a, k);
    StayingMeansLate(a, k);
    SqliteOffered(a, ProjectCall(Sqlite, k.table));
    SqliteOffered(a, TaskCall(Sqlite, k.table));
    SqliteOffered(a, a.clock);
  }

  // ----- one write while the delete runs -----

  /** On Postgres the others' only write puts `row` at `k`, between the `c`-th call
      of the transaction and the next. */
  ghost predicate OnlyWrite(a: DeleteProjectAdapter, c: nat, k: Key, row: Row) {
    && a.dialect == Postgres
    && a.sched(c).writes == [Write(k, Some(row))]
    && (forall n: nat :: n != c ==> a.sched(n).writes == [])
  }

  lemma {:induction false} OfferedWrite(a: DeleteProjectAdapter, c: nat, k: Key, row: Row, n: nat)
    requires OnlyWrite(a, c, k, row)
    ensures a.Offered(n) == if n > c then [Write(k, Some(row))] else []
    decreases n
  {
    if n > 0 { OfferedWrite(a, c, k, row, n - 1); }
  }

  lemma LastOfOne(w: Write, q: Key, before: Option<Row>)
    ensures LastWrite([w], q, before) == if q == w.key then w.row else before
  {
    assert [w][..0] == [];
  }

  lemma WorldAfterWrite(a: DeleteProjectAdapter, c: nat, k: Key, row: Row, n: nat)
    requires OnlyWrite(a, c, k, row)
    ensures Get(a.World(n), k) == if n > c then Some(row) else Get(a.base, k)
    ensures forall q :: q != k ==> Get(a.World(n), q) == Get(a.base, q)
  {
    OfferedWrite(a, c, k, row, n);
    forall q ensures Get(a.World(n), q) == if n > c && q == k then Some(row) else Get(a.base, q) {
      ReplayGet(a.base, a.Offered(n), q);
      LastOfOne(Write(k, Some(row)), q, Get(a.base, q));
    }
  }

  lemma CaughtInTime(a: DeleteProjectAdapter, tasks: set<Uuid>, c: nat, k: Key, row: Row, last: nat)
    requires OnlyWrite(a, c, k, row) && k.RowKey? && NamesProject(k.table) && k !in a.base
    requires row.Row? && row.project == Some(a.id) && TouchOf(Postgres, last) == Clean(ClearProjectRefs(k.table))
    ensures Missed(a, tasks, k, last) <==> last <= c
  {
    if last <= c {
      forall m | 0 < m <= last ensures !CaughtAt(a, tasks, k, m) { WorldAfterWrite(a, c, k, row, m); }
    } else {
      WorldAfterWrite(a, c, k, row, last);
      assert CaughtAt(a, tasks, k, last);
    }
  }

  /** Such a write is neither the project nor a task. */
  lemma WriteSparesTasks(a: DeleteProjectAdapter, c: nat, k: Key, row: Row, n: nat)
    requires OnlyWrite(a, c, k, row) && IsRef(k)
    ensures TasksOf(a.World(n), a.id, a.ws) == TasksOf(a.base, a.id, a.ws)
  {
    WorldAfterWrite(a, c, k, row, n);
    TasksOfSame(a.World(n), a.base, a.id, a.ws);
  }

  lemma WriteSparesProject(a: DeleteProjectAdapter, c: nat, k: Key, row: Row, n: nat)
    requires OnlyWrite(a, c, k, row) && IsRef(k)
    ensures ProjectVisible(a.World(n), a.id, a.ws) <==> ProjectVisible(a.base, a.id, a.ws)
  {
    WorldAfterWrite(a, c, k, row, n);
    assert Get(a.World(n), RowKey(Projects, a.id)) == Get(a.base, RowKey(Projects, a.id));
  }

  lemma LateWriteStays(a: DeleteProjectAdapter, c: nat, k: Key, row: Row)
    requires OnlyWrite(a, c, k, row) && k.RowKey? && NamesProject(k.table) && k !in a.base
    requires row.Row? && row.project == Some(a.id) && a.RefsFollow() && a.clock == DeleteCall(Postgres) + 3
    ensures NamesTheProject(a, k, Get(a.committed, k)) <==> ProjectCall(Postgres, k.table) <= c < a.clock
  {
    DueForTable(Postgres, k.table);
    WhichReferencesStay(a, k);
    CaughtInTime(a, SetOf(a.locked), c, k, row, ProjectCall(Postgres, k.table));
    WorldAfterWrite(a, c, k, row, a.clock);
  }

  /** A new row that names the project does not stop the delete. It is cleared when
      it comes before the call that clears its table, and is left naming a deleted
      project when it comes later. */
  method ReferenceStaysIff(a: DeleteProjectAdapter, c: nat, k: Key, row: Row, author: string, at: int)
    returns (r: Outcome)
    requires a.Idle() && OnlyWrite(a, c, k, row) && forall n: nat :: !a.sched(n).fails
    requires k.RowKey? && NamesProject(k.table) && k !in a.committed
    requires row.Row? && row.project == Some(a.id) && ProjectVisible(a.committed, a.id, a.ws)
    modifies a
    ensures r.Deleted?
    ensures NamesTheProject(a, k, Get(a.committed, k)) <==>
              ProjectCall(Postgres, k.table) <= c < DeleteCall(Postgres) + 3
  {
    WriteSparesProject(a, c, k, row, CHECK_CALL);
    WriteSparesTasks(a, c, k, row, LOCK_CALL);
    WriteSparesTasks(a, c, k, row, DeleteCall(Postgres));
    ghost var project, rows;
    r, project, rows := DeleteProjectOrchestration(a, author, at, D.NoCheck);
    LateWriteStays(a, c, k, row);
  }

  // ----- a task that arrives while the delete runs -----

  /** On Postgres the others' only write puts `row` at task `t`. */
  ghost predicate OnlyArrival(a: DeleteProjectAdapter, c: nat, t: Uuid, row: Row) {
    OnlyWrite(a, c, RowKey(Tasks, t), row)
  }

  /** Who is a task of the project in a store a single arrival has reached. */
  lemma TasksAfterArrival(db: Db, p: Uuid, ws: Option<Uuid>, t: Uuid, row: Row)
    requires InScope(ws, row) && row.project == Some(p)
    ensures TasksOf(Replay(db, [Write(RowKey(Tasks, t), Some(row))]), p, ws) == TasksOf(db, p, ws) + {t}
    ensures Replay(db, []) == db
    ensures TaskNames(Replay(db, [Write(RowKey(Tasks, t), Some(row))]), p, t)
  {
    var w := Write(RowKey(Tasks, t), Some(row));
    assert [w][..0] == [] && Replay(db, [w][..0]) == db;
    var after := Replay(db, [w]);
    assert after == Put(db, w) == db[w.key := row];
    TasksOfMembers(db, p, ws);
    TasksOfMembers(after, p, ws);
    forall u ensures u in TasksOf(after, p, ws) <==> u in TasksOf(db, p, ws) || u == t {
      assert RowKey(Tasks, u) == w.key <==> u == t;
    }
  }

  /** What the calls that matter see of a single arrival. */
  lemma ArrivalWorlds(a: DeleteProjectAdapter, c: nat, t: Uuid, row: Row)
    requires OnlyArrival(a, c, t, row) && InScope(a.ws, row) && row.project == Some(a.id)
    ensures ProjectVisible(a.World(CHECK_CALL), a.id, a.ws) <==> ProjectVisible(a.base, a.id, a.ws)
    ensures TasksOf(a.World(LOCK_CALL), a.id, a.ws) == TasksOf(a.base, a.id, a.ws) + (if c < LOCK_CALL then {t} else {})
    ensures TasksOf(a.World(DeleteCall(Postgres)), a.id, a.ws) ==
            TasksOf(a.base, a.id, a.ws) + (if c < DeleteCall(Postgres) then {t} else {})
  {
    OfferedWrite(a, c, RowKey(Tasks, t), row, CHECK_CALL);
    OfferedWrite(a, c, RowKey(Tasks, t), row, LOCK_CALL);
    OfferedWrite(a, c, RowKey(Tasks, t), row, DeleteCall(Postgres));
    TasksAfterArrival(a.base, a.id, a.ws, t, row);
  }

  lemma LeftAfterArrival(a: DeleteProjectAdapter, c: nat, t: Uuid, row: Row, author: string, at: int,
                         project: Option<Row>, rows: map<Uuid, Row>)
    requires OnlyArrival(a, c, t, row) && InScope(a.ws, row) && row.project == Some(a.id)
    requires ProjectVisible(a.base, a.id, a.ws) && !TaskNames(a.base, a.id, t)
    requires Committed(a, a.base, author, at, project, rows)
    ensures RowKey(Projects, a.id) !in a.committed
    ensures TaskNames(a.committed, a.id, t) <==> t !in a.locked && c < a.clock
  {
    OfferedWrite(a, c, RowKey(Tasks, t), row, a.clock);
    var pk := RowKey(Projects, a.id);
    assert NotWritten(a.Offered(a.clock), pk);
    NothingDangles(a, a.base, author, at, project, rows, pk);
    WhoIsLeftBehind(a, a.base, author, at, project, rows, t);
    TasksAfterArrival(a.base, a.id, a.ws, t, row);
  }

  /** When a task that arrives is noticed. Before the lock it is deleted with the
      others. From the lock up to the call that deletes the task rows it forces a
      refusal. After that call nothing looks again: the delete commits, and the
      task is left naming a project that is gone. */
  method ArrivalIsRefusedIff(a: DeleteProjectAdapter, c: nat, t: Uuid, row: Row, author: string, at: int)
    returns (r: Outcome)
    requires a.Idle() && OnlyArrival(a, c, t, row) && forall n: nat :: !a.sched(n).fails
    requires InScope(a.ws, row) && row.project == Some(a.id)
    requires ProjectVisible(a.committed, a.id, a.ws) && !TaskNames(a.committed, a.id, t)
    modifies a
    ensures r.TasksChanged? || r.Deleted?
    ensures r.TasksChanged? <==> LOCK_CALL <= c < DeleteCall(Postgres)
    ensures t in a.locked <==> c < LOCK_CALL
    ensures r.Deleted? ==> RowKey(Projects, a.id) !in a.committed
    ensures r.Deleted? ==> (TaskNames(a.committed, a.id, t) <==> DeleteCall(Postgres) <= c < DeleteCall(Postgres) + 3)
  {
    ArrivalWorlds(a, c, t, row);
    TasksOfMembers(a.base, a.id, a.ws);
    ghost var project, rows;
    r, project, rows := DeleteProjectOrchestration(a, author, at, D.NoCheck);
    assert t in SetOf(a.locked) <==> t in a.locked;
    if r.Deleted? { LeftAfterArrival(a, c, t, row, author, at, project, rows); }
  }

  /** On SQLite a delete that began is refused only for the caller's own digest:
      nobody else can write before it ends. */
  method SqliteRefusesOnlyThePreview(a: DeleteProjectAdapter, author: string, at: int, expected: D.Digest)
    returns (r: Outcome)
    requires a.Idle() && a.dialect == Sqlite
    modifies a
    ensures r.TasksChanged? ==> expected != D.NoCheck && expected != D.DigestOf(a.locked)
  {
    SqliteOffered(a, LOCK_CALL);
    SqliteOffered(a, DeleteCall(Sqlite));
    ghost var project, rows;
    r, project, rows := DeleteProjectOrchestration(a, author, at, expected);
  }

  lemma {:induction false} OfferedNothing(a: DeleteProjectAdapter, n: nat)
    requires forall c: nat :: a.sched(c).writes == []
    ensures a.Offered(n) == []
    decreases n
  {
    if n > 0 { OfferedNothing(a, n - 1); }
  }

  /** With no other writer and no failing call the outcome is decided by the
      store alone, on either backend. */
  method DeleteUndisturbed(a: DeleteProjectAdapter, author: string, at: int, expected: D.Digest)
    returns (r: Outcome, ghost project: Option<Row>, ghost rows: map<Uuid, Row>)
    requires a.Idle() && (forall c: nat :: a.sched(c).writes == [] && !a.sched(c).fails)
    modifies a
    ensures r.NotFound? <==> !ProjectVisible(a.base, a.id, a.ws)
    ensures r.Deleted? <==>
              ProjectVisible(a.base, a.id, a.ws) && (expected == D.NoCheck || expected == D.DigestOf(a.locked))
    ensures !r.NotFound? ==> Distinct(a.locked) && SetOf(a.locked) == TasksOf(a.base, a.id, a.ws)
    ensures !r.StepFailed? && (!r.Deleted? ==> a.committed == a.base && a.Shared() && !a.open)
    ensures r.Deleted? ==>
              r.taskCount == |a.locked| && a.applied == [] && Committed(a, a.base, author, at, project, rows)
    ensures r.Deleted? ==> project == Get(a.base, RowKey(Projects, a.id))
    ensures r.Deleted? ==> forall t :: t in a.locked ==> Some(rows[t]) == Get(a.base, RowKey(Tasks, t))
  {
    OfferedNothing(a, CHECK_CALL);
    OfferedNothing(a, LOCK_CALL);
    OfferedNothing(a, DeleteCall(a.dialect));
    assert Replay(a.base, []) == a.base;
    r, project, rows := DeleteProjectOrchestration(a, author, at, expected);
    assert a.Quiet(0, a.clock) && a.NoFailure(0, a.clock);
  }

  lemma SecondIdIsFresh(a: DeleteProjectAdapter, before: Db, secondID: Uuid, author: string, at: int,
                        project: Option<Row>, rows: map<Uuid, Row>)
    requires Committed(a, before, author, at, project, rows) && a.applied == []
    requires secondID != a.deletionID && forall k :: k in before && !k.RowKey? ==> k.deletion != secondID
    ensures forall k :: k in a.committed && !k.RowKey? ==> k.deletion != secondID
  {
    forall k | k in a.committed && !k.RowKey? ensures k.deletion != secondID {
      if !a.Own(k) {
        assert NotWritten(a.applied, k);
        assert Get(a.committed, k) == Expected(SetOf(a.locked), a.id, a.ws, a.now, at - TOMBSTONE_RETENTION, k,
          Get(before, k));
      }
    }
  }

  /** Deleting the same project again finds nothing and leaves the store alone. */
  method DeleteTwice(a: DeleteProjectAdapter, secondID: Uuid, author: string, at: int, expected: D.Digest)
    returns (first: Outcome, second: Outcome, again: DeleteProjectAdapter)
    requires a.Idle() && (forall c: nat :: a.sched(c).writes == [] && !a.sched(c).fails)
    requires secondID != a.deletionID && forall k :: k in a.committed && !k.RowKey? ==> k.deletion != secondID
    modifies a
    ensures fresh(again) && again.base == a.committed
    ensures first.Deleted? || first.NotFound? ==> second.NotFound? && again.committed == a.committed
    ensures first.TasksChanged? ==> second.TasksChanged? && again.committed == a.committed == old(a.committed)
  {
    ghost var project, rows;
    ghost var before := a.committed;
    first, project, rows := DeleteUndisturbed(a, author, at, expected);
    var db := a.committed;
    if first.Deleted? {
      SecondIdIsFresh(a, before, secondID, author, at, project, rows);
      NothingDangles(a, before, author, at, project, rows, RowKey(Projects, a.id));
    }
    again := new DeleteProjectAdapter(a.dialect, a.id, a.ws, secondID, a.now, a.sched, db);
    second, project, rows := DeleteUndisturbed(again, author, at, expected);
    if first.TasksChanged? { SameDigest(a.locked, again.locked); }
  }

  lemma SameStore(a: Db, b: Db)
    requires forall k :: Get(a, k) == Get(b, k)
    ensures a == b
  {
    assert forall k :: k in a <==> Get(a, k).Some?;
    assert forall k :: k in b <==> Get(b, k).Some?;
    assert a.Keys == b.Keys;
    forall k | k in a ensures a[k] == b[k] { assert Get(a, k) == Get(b, k); }
  }

  lemma SameSize(a: seq<Uuid>, b: seq<Uuid>)
    requires Distinct(a) && Distinct(b) && SetOf(a) == SetOf(b)
    ensures |a| == |b|
  {
    SetOfSize(a);
    SetOfSize(b);
  }

  lemma SameSnapshots(before: Db, ids: set<Uuid>, a: map<Uuid, Row>, b: map<Uuid, Row>)
    requires a.Keys == ids && b.Keys == ids
    requires forall t :: t in ids ==> Some(a[t]) == Get(before, RowKey(Tasks, t))
    requires forall t :: t in ids ==> Some(b[t]) == Get(before, RowKey(Tasks, t))
    ensures a == b
  {
  }

  /** Two deletes that started from one store, took one set of tasks and met no
      other writer leave one store. */
  lemma SameCommitted(a: DeleteProjectAdapter, b: DeleteProjectAdapter, before: Db, author: string, at: int,
                      project: Option<Row>, rows: map<Uuid, Row>)
    requires a.applied == [] && b.applied == [] && SetOf(a.locked) == SetOf(b.locked) && |a.locked| == |b.locked|
    requires a.id == b.id && a.ws == b.ws && a.deletionID == b.deletionID && a.now == b.now
    requires Committed(a, before, author, at, project, rows) && Committed(b, before, author, at, project, rows)
    ensures a.committed == b.committed
  {
    forall k ensures Get(a.committed, k) == Get(b.committed, k) {
      assert a.Own(k) <==> b.Own(k);
      assert NotWritten(a.applied, k) && NotWritten(b.applied, k);
    }
    SameStore(a.committed, b.committed);
  }

  /** Postgres and SQLite leave the same store behind. */
  method BackendsAgree(pg: DeleteProjectAdapter, lite: DeleteProjectAdapter, author: string, at: int,
                       expected: D.Digest)
    returns (r: Outcome, s: Outcome)
    requires pg != lite && pg.Idle() && lite.Idle() && pg.committed == lite.committed
    requires pg.dialect == Postgres && lite.dialect == Sqlite && pg.id == lite.id && pg.ws == lite.ws
    requires pg.deletionID == lite.deletionID && pg.now == lite.now
    requires forall c: nat :: pg.sched(c).writes == [] && !pg.sched(c).fails
    requires forall c: nat :: lite.sched(c).writes == [] && !lite.sched(c).fails
    modifies pg, lite
    ensures r == s && pg.committed == lite.committed
  {
    ghost var p1, t1, p2, t2;
    r, p1, t1 := DeleteUndisturbed(pg, author, at, expected);
    s, p2, t2 := DeleteUndisturbed(lite, author, at, expected);
    if !r.NotFound? {
      SameDigest(pg.locked, lite.locked);
      SameSize(pg.locked, lite.locked);
    }
    if r.Deleted? {
      SameSnapshots(pg.base, SetOf(pg.locked), t1, t2);
      SameCommitted(pg, lite, pg.base, author, at, p1, t1);
    }
  }

  function WithoutTasks(db: Db, p: Uuid, ws: Option<Uuid>): Db {
    db - set k | k in db && k.RowKey? && k.table == Tasks && IsTaskOf(db, p, ws, k.id)
  }

  /** Why every task cleanup comes first on SQLite, whose cleanups select the
      project's tasks again: once the tasks are deleted the selection is empty and
      a task cleanup changes nothing, whatever still points at them. */
  lemma TaskCleanupAfterDeleteDoesNothing(db: Db, p: Uuid, ws: Option<Uuid>, st: Step, now: int)
    requires st.DropTaskRefs? || st.ClearTaskRefs? || st.ReopenPromoted?
    ensures TasksOf(WithoutTasks(db, p, ws), p, ws) == {}
    ensures ApplyStep(st, TasksOf(WithoutTasks(db, p, ws), p, ws), p, now, WithoutTasks(db, p, ws))
              == WithoutTasks(db, p, ws)
  {
    var rest := WithoutTasks(db, p, ws);
    forall t ensures !IsTaskOf(rest, p, ws, t) {
      var k := RowKey(Tasks, t);
      if k in rest { assert k in db && rest[k] == db[k]; }
    }
    TasksOfMembers(rest, p, ws);
    assert TasksOf(rest, p, ws) == {};
    SameStore(ApplyStep(st, {}, p, now, rest), rest);
  }
}

/** The delete-project transaction, run against any schedule of other writers
    and failing calls. */
module DeleteProject {
  import opened Ids
  import opened Seqs
  import opened ProjectTables
  import D = TaskSetDigest

  /** What happens around one adapter call: the rows other connections commit
      just before it, and whether the call itself fails. */
  datatype Slot = Slot(writes: seq<Write>, fails: bool)

  /** `NotFound` is the quiet `(0, nil)` answer. */
  datatype Outcome = NotFound | TasksChanged | StepFailed | Deleted(taskCount: nat)

  /** Thirty days, in seconds. */
  const TOMBSTONE_RETENTION := 30 * 24 * 60 * 60

  /** Calls of the transaction, counted from one: begin, look up, lock. */
  const CHECK_CALL: nat := 2
  const LOCK_CALL: nat := 3

  /** The calls `LockTaskRows` makes: the select, and on Postgres four prelocks. */
  function LockCalls(d: Dialect): nat {
    if d == Postgres then 5 else 1
  }

  const SNAPSHOT_CALLS: nat := 3

  /** Calls from the snapshot up to and including the one that deletes the task
      rows: three for the snapshot, thirteen cleanups, the delete. */
  const SNAPSHOT_TO_DELETE := 17

  /** Which call of the transaction deletes the task rows, counting from one. */
  function DeleteCall(d: Dialect): nat {
    2 + LockCalls(d) + SNAPSHOT_TO_DELETE
  }

  /** Writes that do not have to wait: the row is not locked by the delete, and
      does not carry the fresh id the delete drew for itself. */
  function Permitted(ws: seq<Write>, locks: set<Key>, deletion: Uuid): (r: seq<Write>)
    ensures forall w :: w in r ==> w in ws && w.key !in locks && (w.key.RowKey? || w.key.deletion != deletion)
    ensures ws == [] ==> r == []
  {
    if |ws| == 0 then []
    else
      var init := Permitted(ws[..|ws| - 1], locks, deletion);
      var w := ws[|ws| - 1];
      if w.key !in locks && (w.key.RowKey? || w.key.deletion != deletion) then init + [w] else init
  }

  lemma {:induction false} PermittedLast(ws: seq<Write>, locks: set<Key>, deletion: Uuid, k: Key, before: Option<Row>)
    requires k !in locks && (k.RowKey? || k.deletion != deletion)
    ensures LastWrite(Permitted(ws, locks, deletion), k, before) == LastWrite(ws, k, before)
    decreases |ws|
  {
    if |ws| > 0 {
      PermittedLast(ws[..|ws| - 1], locks, deletion, k, before);
      var init, w := Permitted(ws[..|ws| - 1], locks, deletion), ws[|ws| - 1];
      assert (init + [w])[..|init|] == init;
    }
  }

  /** A row that is not locked follows the others' writes. */
  lemma RowFollows(a: Db, world: Db, ws: seq<Write>, locks: set<Key>, deletion: Uuid, k: Key)
    requires k !in locks && (k.RowKey? || k.deletion != deletion)
    requires Get(a, k) == Get(world, k)
    ensures Get(Replay(a, Permitted(ws, locks, deletion)), k) == Get(Replay(world, ws), k)
  {
    PermittedLast(ws, locks, deletion, k, Get(a, k));
    ReplayGet(a, Permitted(ws, locks, deletion), k);
    ReplayGet(world, ws, k);
  }

  lemma ReplayBoth(a: Db, b: Db, ws: seq<Write>, k: Key)
    ensures NotWritten(ws, k) ==> Get(Replay(a, ws), k) == Get(a, k) && Get(Replay(b, ws), k) == Get(b, k)
    ensures Get(a, k) == Get(b, k) ==> Get(Replay(a, ws), k) == Get(Replay(b, ws), k)
  {
    if NotWritten(ws, k) {
      ReplayNotWritten(a, ws, k);
      ReplayNotWritten(b, ws, k);
    }
    ReplayGet(a, ws, k);
    ReplayGet(b, ws, k);
  }

  /** A row nobody offers to write is a row nobody writes. */
  lemma OnlyOffered(offered: seq<Write>, applied: seq<Write>, ws: seq<Write>, locks: set<Key>, deletion: Uuid)
    requires forall k :: NotWritten(offered, k) ==> NotWritten(applied, k)
    ensures forall k :: NotWritten(offered + ws, k) ==> NotWritten(applied + Permitted(ws, locks, deletion), k)
  {
    forall k | NotWritten(offered + ws, k) ensures NotWritten(applied + Permitted(ws, locks, deletion), k) {
      forall w | w in offered ensures w.key != k { assert w in offered + ws; }
      forall w | w in ws ensures w.key != k { assert w in offered + ws; }
      assert NotWritten(offered, k);
    }
  }

  /** A statement returns its rows in no particular order. */
  method Enumerate(s: set<Uuid>) returns (ids: seq<Uuid>)
    ensures Distinct(ids) && SetOf(ids) == s
  {
    ids := [];
    var rest := s;
    while rest != {}
      invariant Distinct(ids) && SetOf(ids) + rest == s && SetOf(ids) !! rest
      decreases rest
    {
      var x :| x in rest;
      assert x !in SetOf(ids);
      assert SetOf(ids + [x]) == SetOf(ids) + {x};
      ids, rest := ids + [x], rest - {x};
    }
  }

  lemma TasksOfMembers(db: Db, p: Uuid, ws: Option<Uuid>)
    ensures forall t :: t in TasksOf(db, p, ws) <==> IsTaskOf(db, p, ws, t)
  {
    forall t | IsTaskOf(db, p, ws, t) ensures t in TasksOf(db, p, ws) {
      assert RowKey(Tasks, t) in db;
    }
  }

  lemma TasksOfSame(a: Db, b: Db, p: Uuid, ws: Option<Uuid>)
    requires forall t :: Get(a, RowKey(Tasks, t)) == Get(b, RowKey(Tasks, t))
    ensures TasksOf(a, p, ws) == TasksOf(b, p, ws)
  {
    forall t ensures IsTaskOf(a, p, ws, t) <==> IsTaskOf(b, p, ws, t) {
      assert Get(a, RowKey(Tasks, t)) == Get(b, RowKey(Tasks, t));
    }
    TasksOfMembers(a, p, ws);
    TasksOfMembers(b, p, ws);
  }

  lemma {:induction false} AfterConcat(a: seq<Step>, b: seq<Step>, tasks: set<Uuid>, p: Uuid, now: int, k: Key,
                                       r: Option<Row>)
    ensures After(a + b, tasks, p, now, k, r) == After(b, tasks, p, now, k, After(a, tasks, p, now, k, r))
    decreases |b|
  {
    if |b| == 0 {
      assert a + b == a;
    } else {
      assert (a + b)[..|a + b| - 1] == a + b[..|b| - 1];
      AfterConcat(a, b[..|b| - 1], tasks, p, now, k, r);
    }
  }

  /** The row a committed delete leaves for a row no other connection wrote:
      the tasks and the project go, old tombstones go, references are cleared. */
  function Expected(tasks: set<Uuid>, p: Uuid, ws: Option<Uuid>, now: int, cutoff: int, k: Key,
                    r: Option<Row>): Option<Row> {
    if r.None? then None
    else if k.RowKey? && k.table == Tasks && k.id in tasks then None
    else if k == RowKey(Projects, p) && InScope(ws, r.value) then None
    else if Matches(PruneTombstones(cutoff), tasks, p, k, r.value) then None
    else Scrub(tasks, p, now, k, r.value)
  }

  /** The rows a delete adds: one tombstone for the project row it saw, one for
      each task, all under one id, author and time, and the audit row. */
  function OwnRow(p: Uuid, project: Option<Row>, tasks: map<Uuid, Row>, author: string, at: int, audit: Option<Row>,
                  k: Key): Option<Row> {
    if k.RowKey? then None
    else if k.AuditKey? then audit
    else if k.kind == Projects && k.entity == p && project.Some? then Some(Tombstone(author, at, project.value))
    else if k.kind == Tasks && k.entity in tasks then Some(Tombstone(author, at, tasks[k.entity]))
    else None
  }

  /** `INSERT INTO deletion_tombstones … SELECT … FROM tasks`: the rows inserted. */
  method TombstonesFor(deletion: Uuid, taken: map<Uuid, Row>, author: string, at: int) returns (rows: Db)
    ensures forall k :: k in rows <==> k.TombstoneKey? && k.deletion == deletion && k.kind == Tasks && k.entity in taken
    ensures forall k :: k in rows ==> rows[k] == Tombstone(author, at, taken[k.entity])
  {
    rows := map t | t in taken :: TombstoneKey(deletion, Tasks, t) := Tombstone(author, at, taken[t]);
  }

  method WithTombstones(db: Db, deletion: Uuid, taken: map<Uuid, Row>, author: string, at: int)
    returns (r: Db, keys: set<Key>)
    ensures forall k :: k in keys <==> k.TombstoneKey? && k.deletion == deletion && k.kind == Tasks && k.entity in taken
    ensures forall k :: Get(r, k) == if k in keys then Some(Tombstone(author, at, taken[k.entity])) else Get(db, k)
  {
    var rows := TombstonesFor(deletion, taken, author, at);
    r, keys := db + rows, rows.Keys;
  }

  /** The statement writes neither task nor project rows. */
  predicate SparesTasks(st: Step) {
    match st
    case PruneTombstones(_) => true
    case DropTaskRefs(t) => t != Tasks && t != Projects
    case ClearTaskRefs(t) => t != Tasks && t != Projects
    case ReopenPromoted => true
    case ClearProjectRefs(t) => t != Tasks && t != Projects
  }

  /** What one call does to the rows that refer to tasks or projects. */
  datatype Touch = Nothing | Lock(table: Table) | Clean(step: Step)

  const PRELOCKED: seq<Table> := [WorkSessions, VisionItems, Decisions, KnowledgeItems]

  /** The first of the thirteen cleanup calls. */
  function FirstCleanup(d: Dialect): nat {
    CHECK_CALL + LockCalls(d) + SNAPSHOT_CALLS + 1
  }

  function TouchOf(d: Dialect, n: nat): Touch {
    if d == Postgres && LOCK_CALL < n <= LOCK_CALL + |PRELOCKED| then Lock(PRELOCKED[n - LOCK_CALL - 1])
    else if FirstCleanup(d) <= n < FirstCleanup(d) + |CLEANUPS| then Clean(CLEANUPS[n - FirstCleanup(d)])
    else Nothing
  }

  lemma PrelockDue(i: nat)
    requires i < |PRELOCKED|
    ensures TouchOf(Postgres, LOCK_CALL + i + 1) == Lock(PRELOCKED[i])
  {
  }

  lemma CleanupDue(d: Dialect, i: nat)
    requires i < |CLEANUPS|
    ensures TouchOf(d, FirstCleanup(d) + i) == Clean(CLEANUPS[i])
  {
  }

  /** Neither the snapshot nor what follows the cleanups touches those rows. */
  lemma NothingDue(d: Dialect, n: nat)
    requires CHECK_CALL + LockCalls(d) < n < FirstCleanup(d) || FirstCleanup(d) + |CLEANUPS| <= n
    ensures TouchOf(d, n) == Nothing
  {
  }

  predicate IsRef(k: Key) {
    k.RowKey? && k.table != Projects && k.table != Tasks
  }

  /** The WHERE clause of the prelock of a table. */
  predicate Prelocks(t: Table, tasks: set<Uuid>, p: Uuid, k: Key, r: Row) {
    k.RowKey? && k.table == t && r.Row? && ((r.task.Some? && r.task.value in tasks) || r.project == Some(p))
  }

  predicate Catches(touch: Touch, tasks: set<Uuid>, p: Uuid, k: Key, r: Row) {
    match touch
    case Nothing => false
    case Lock(t) => Prelocks(t, tasks, p, k, r)
    case Clean(st) => Matches(st, tasks, p, k, r)
  }

  /** Does some cleanup change this row? */
  ghost predicate SomeCleanupMatches(tasks: set<Uuid>, p: Uuid, k: Key, r: Row) {
    exists j :: 0 <= j < |CLEANUPS| && Matches(CLEANUPS[j], tasks, p, k, r)
  }

  lemma CleanupsOfTable(t: Table, i: nat, j: nat, tasks: set<Uuid>, p: Uuid, k: Key, r: Row)
    requires i < |CLEANUPS| && j < |CLEANUPS| && k.RowKey? && k.table == t && r.Row?
    requires CLEANUPS[i] == ClearTaskRefs(t) || (t == VisionItems && CLEANUPS[i] == ReopenPromoted)
    requires CLEANUPS[j] == ClearProjectRefs(t)
    ensures (r.task.Some? && r.task.value in tasks) || r.project == Some(p) ==> SomeCleanupMatches(tasks, p, k, r)
  {
    if r.task.Some? && r.task.value in tasks { assert Matches(CLEANUPS[i], tasks, p, k, r); }
    if r.project == Some(p) { assert Matches(CLEANUPS[j], tasks, p, k, r); }
  }

  /** What each prelock takes is the union of what the cleanups of its table change. */
  lemma {:induction false} PrelockIsUnion(tasks: set<Uuid>, p: Uuid, k: Key, r: Row, i: nat)
    requires i < 4
    ensures var t := [WorkSessions, VisionItems, Decisions, KnowledgeItems][i];
            && |PRELOCKED| == 4 && PRELOCKED[i] == t
            && (Catches(Lock(t), tasks, p, k, r) <==>
                 && k.RowKey? && k.table == t && r.Row?
                 && ((r.task.Some? && r.task.value in tasks) || r.project == Some(p)))
            && (Catches(Lock(t), tasks, p, k, r) <==>
                 k.RowKey? && k.table == t && SomeCleanupMatches(tasks, p, k, r))
  {
    var t := PRELOCKED[i];
    if k.RowKey? && k.table == t && r.Row? {
      if i == 0 { CleanupsOfTable(t, 1, 10, tasks, p, k, r); }
      else if i == 1 { CleanupsOfTable(t, 3, 11, tasks, p, k, r); }
      else if i == 2 { CleanupsOfTable(t, 4, 7, tasks, p, k, r); }
      else { CleanupsOfTable(t, 5, 8, tasks, p, k, r); }
    }
  }

  /** A row as the transaction sees it, and whether it holds its lock. */
  datatype Sight = Sight(held: bool, row: Option<Row>)

  function Touched(touch: Touch, tasks: set<Uuid>, p: Uuid, now: int, k: Key, s: Sight): Sight {
    Sight(s.held || (s.row.Some? && Catches(touch, tasks, p, k, s.row.value)),
          if touch.Clean? then StepOpt(touch.step, tasks, p, now, k, s.row) else s.row)
  }

  /** What is left of another deletion's tombstone: it goes when it is older than
      thirty days, and stays as it was otherwise. */
  ghost predicate Retained(k: Key, before: Option<Row>, after: Option<Row>, at: int) {
    && (after.Some? <==> before.Some? && !(before.value.Tombstone? && before.value.deletedAt < at - 2592000))
    && (after.Some? ==> after == before)
  }

  lemma PruneRetains(tasks: set<Uuid>, p: Uuid, ws: Option<Uuid>, now: int, at: int, k: Key, r: Option<Row>)
    requires k.TombstoneKey?
    ensures Retained(k, r, StepOpt(PruneTombstones(at - TOMBSTONE_RETENTION), tasks, p, now, k, r), at)
    ensures Retained(k, r, Expected(tasks, p, ws, now, at - TOMBSTONE_RETENTION, k, r), at)
  {
  }

  class DeleteProjectAdapter {
    const dialect: Dialect
    const id: Uuid
    const ws: Option<Uuid>
    const deletionID: Uuid
    const now: int
    const sched: nat -> Slot
    var clock: nat
    var committed: Db
    var view: Db
    var open: bool
    var locks: set<Key>
    var locked: seq<Uuid>
    ghost const base: Db
    ghost var applied: seq<Write>

    predicate Own(k: Key) {
      !k.RowKey? && k.deletion == deletionID
    }

    /** What the other connections would have committed when the `n`-th call
        runs if no row were locked. SQLite has one connection: from the second
        call on the transaction holds it and nobody else commits. */
    ghost function Offered(n: nat): seq<Write> {
      if n == 0 then []
      else Offered(n - 1) + if dialect == Sqlite && n > 1 then [] else sched(n - 1).writes
    }

    /** The store as the others alone make it, when the `n`-th call runs. */
    ghost function World(n: nat): Db {
      Replay(base, Offered(n))
    }

    /** Rows the transaction has not locked are as the others alone make them. */
    ghost predicate OnSchedule()
      reads this`clock, this`committed, this`locks
    {
      forall k :: k !in locks && !Own(k) ==> Get(committed, k) == Get(World(clock), k)
    }

    /** The committed store is the initial one with the others' writes. */
    ghost predicate Shared()
      reads this`clock, this`committed, this`locks, this`applied
    {
      && committed == Replay(base, applied)
      && (forall k :: Own(k) ==> k !in committed)
      && (forall w :: w in applied ==> !Own(w.key))
      && (forall k :: NotWritten(Offered(clock), k) ==> NotWritten(applied, k))
      && OnSchedule()
    }

    ghost predicate Idle()
      reads this
    {
      Shared() && !open && clock == 0 && locks == {} && applied == [] && committed == base
    }

    constructor (dialect: Dialect, id: Uuid, ws: Option<Uuid>, deletionID: Uuid, now: int, sched: nat -> Slot, db: Db)
      requires forall k :: k in db && !k.RowKey? ==> k.deletion != deletionID
      ensures this.dialect == dialect && this.id == id && this.ws == ws && this.deletionID == deletionID
      ensures this.now == now && this.sched == sched && clock == 0
      ensures Idle() && committed == base == db
    {
      this.dialect, this.id, this.ws, this.deletionID, this.now, this.sched := dialect, id, ws, deletionID, now, sched;
      clock, committed, view, open, locks, locked := 0, db, db, false, {}, [];
      base, applied := db, [];
    }

    lemma OfferedNext(n: nat)
      ensures dialect == Sqlite && n > 0 ==> Offered(n + 1) == Offered(n)
      ensures dialect == Postgres || n == 0 ==>
                Offered(n + 1) == Offered(n) + sched(n).writes && World(n + 1) == Replay(World(n), sched(n).writes)
    {
      ReplayConcat(base, Offered(n), sched(n).writes);
    }

    /** What a call finds at `k`, when its last sight of it was `s`: a row it holds
        is as it was, any other is as the others alone make it. */
    ghost function Found(s: Sight, k: Key, n: nat): Sight {
      if s.held then s else Sight(false, Get(World(n), k))
    }

    /** What the schedule alone makes of a row: the sight of it after `n` calls. */
    ghost function Seen(tasks: set<Uuid>, k: Key, n: nat): Sight {
      if n == 0 then Sight(false, Get(base, k))
      else Touched(TouchOf(dialect, n), tasks, id, now, k, Found(Seen(tasks, k, n - 1), k, n))
    }

    function SightOf(k: Key): Sight
      reads this`view, this`locks
    {
      Sight(k in locks, Get(view, k))
    }

    /** The row at `k` is as the schedule says after `n` calls. */
    ghost predicate Tracks(v: Db, held: set<Key>, tasks: set<Uuid>, k: Key, n: nat) {
      Sight(k in held, Get(v, k)) == Seen(tasks, k, n)
    }

    /** The same in the middle of call `n`, after the others' writes. */
    ghost predicate Meets(v: Db, held: set<Key>, tasks: set<Uuid>, k: Key, n: nat)
      requires n > 0
    {
      Sight(k in held, Get(v, k)) == Found(Seen(tasks, k, n - 1), k, n)
    }

    /** Every row that may refer to a task or a project is as the schedule says. */
    ghost predicate FollowsIn(v: Db, held: set<Key>, tasks: set<Uuid>, n: nat) {
      forall k :: IsRef(k) ==> Tracks(v, held, tasks, k, n)
    }

    ghost predicate FindsIn(v: Db, held: set<Key>, tasks: set<Uuid>, n: nat)
      requires n > 0
    {
      forall k :: IsRef(k) ==> Meets(v, held, tasks, k, n)
    }

    ghost predicate Follows()
      reads this`clock, this`view, this`locks, this`locked
    {
      FollowsIn(view, locks, SetOf(locked), clock)
    }

    ghost predicate Finds()
      requires clock > 0
      reads this`clock, this`view, this`locks, this`locked
    {
      FindsIn(view, locks, SetOf(locked), clock)
    }

    /** The committed rows, at the end. */
    ghost predicate RefsFollow()
      reads this`clock, this`committed, this`locked
    {
      forall k :: IsRef(k) ==> Get(committed, k) == Seen(SetOf(locked), k, clock).row
    }

    lemma {:induction false} SeenBeforeLock(tasks: set<Uuid>, k: Key, n: nat)
      requires n <= LOCK_CALL
      ensures Seen(tasks, k, n) == Sight(false, Get(World(n), k))
      decreases n
    {
      if n > 0 { SeenBeforeLock(tasks, k, n - 1); }
    }

    /** Rows the transaction has not locked read as committed. */
    ghost predicate InTx()
      reads this
    {
      Shared() && open && clock > 0 && forall k :: k !in locks ==> Get(view, k) == Get(committed, k)
    }

    lemma CallFinds(v: Db)
      requires InTx() && FollowsIn(v, locks, SetOf(locked), clock - 1)
      requires forall k :: k in locks ==> Get(view, k) == Get(v, k)
      ensures Finds()
    {
      forall k | IsRef(k) ensures Meets(view, locks, SetOf(locked), k, clock) {
        assert Tracks(v, locks, SetOf(locked), k, clock - 1);
      }
    }

    /** A statement that touches the rows as its call should. */
    lemma TouchFollows(v: Db, held: set<Key>, touch: Touch)
      requires clock > 0 && FindsIn(v, held, SetOf(locked), clock) && TouchOf(dialect, clock) == touch
      requires forall k :: IsRef(k) ==>
                 SightOf(k) == Touched(touch, SetOf(locked), id, now, k, Sight(k in held, Get(v, k)))
      ensures Follows()
    {
      forall k | IsRef(k) ensures Tracks(view, locks, SetOf(locked), k, clock) {
        assert Meets(v, held, SetOf(locked), k, clock);
      }
    }

    ghost predicate TaskLocksAre(tasks: set<Uuid>)
      reads this`locks
    {
      forall t :: RowKey(Tasks, t) in locks <==> t in tasks
    }

    /** Task rows outside `gone` read as committed. */
    ghost predicate TasksAgree(gone: set<Uuid>)
      reads this`view, this`committed
    {
      forall t :: t !in gone ==> Get(view, RowKey(Tasks, t)) == Get(committed, RowKey(Tasks, t))
    }

    /** The tasks locked are the ones remembered, they are there and they are the
        project's. On SQLite they are all of them: nobody else can write. */
    ghost predicate LockHeld()
      reads this
    {
      && InTx() && TasksAgree({}) && TaskLocksAre(SetOf(locked))
      && (forall t :: t in locked ==> IsTaskOf(view, id, ws, t))
      && (dialect == Sqlite ==> TasksOf(view, id, ws) == SetOf(locked))
    }

    ghost predicate OwnIs(project: Option<Row>, tasks: map<Uuid, Row>, author: string, at: int, audit: Option<Row>)
      reads this`view
    {
      forall k :: Own(k) ==> Get(view, k) == OwnRow(id, project, tasks, author, at, audit, k)
    }

    /** The others' writes that go through just before the call at `c`. */
    function Admitted(c: nat, held: set<Key>, inTx: bool): seq<Write> {
      if dialect == Sqlite && inTx then [] else Permitted(sched(c).writes, held, deletionID)
    }

    /** No other connection committed anything between two clock readings. */
    ghost predicate Quiet(from: nat, to: nat) {
      forall c :: from <= c < to ==> sched(c).writes == []
    }

    ghost predicate NoFailure(from: nat, to: nat) {
      forall c :: from <= c < to ==> !sched(c).fails
    }

    lemma QuietStep(from: nat, c: nat)
      requires from <= c
      ensures Quiet(from, c + 1) <==> Quiet(from, c) && sched(c).writes == []
      ensures NoFailure(from, c + 1) <==> NoFailure(from, c) && !sched(c).fails
    {
    }

    lemma JoinWindows(from: nat, mid: nat, to: nat)
      requires from <= mid <= to
      ensures Quiet(from, to) <==> Quiet(from, mid) && Quiet(mid, to)
      ensures NoFailure(from, to) <==> NoFailure(from, mid) && NoFailure(mid, to)
    {
    }

    /** The others' writes before the next call that need not wait are committed. */
    method OthersCommit()
      requires Shared() && (dialect == Postgres || clock == 0) && (open ==> InTx())
      modifies this`clock, this`committed, this`view, this`applied
      ensures Shared() && (open ==> InTx()) && clock == old(clock) + 1
      ensures applied == old(applied) + Permitted(sched(old(clock)).writes, locks, deletionID)
      ensures forall k :: k in locks || Own(k) || NotWritten(applied, k) ==>
                Get(view, k) == old(Get(view, k)) && Get(committed, k) == old(Get(committed, k))
      ensures forall gone :: open && old(TasksAgree(gone)) ==> TasksAgree(gone)
      ensures sched(old(clock)).writes == [] ==> view == old(view) && committed == old(committed)
    {
      var ws := sched(clock).writes;
      var writes := Permitted(ws, locks, deletionID);
      ReplayConcat(base, applied, writes);
      OfferedNext(clock);
      OnlyOffered(Offered(clock), applied, ws, locks, deletionID);
      ghost var world := World(clock);
      forall k ensures k !in locks && !Own(k) ==> Get(Replay(committed, writes), k) == Get(World(clock + 1), k) {
        if k !in locks && !Own(k) { RowFollows(committed, world, ws, locks, deletionID, k); }
      }
      forall k ensures Own(k) ==> Get(committed, k) == None && NotWritten(writes, k) {}
      forall k
        ensures NotWritten(writes, k) ==>
                  Get(Replay(committed, writes), k) == Get(committed, k) && Get(Replay(view, writes), k) == Get(view, k)
        ensures Get(view, k) == Get(committed, k) ==> Get(Replay(view, writes), k) == Get(Replay(committed, writes), k)
      {
        ReplayBoth(committed, view, writes, k);
      }
      clock := clock + 1;
      committed := Replay(committed, writes);
      if open { view := Replay(view, writes); }
      applied := applied + writes;
      assert forall k :: Own(k) ==> Get(committed, k) == None;
    }

    /** SQLite has one connection, so nobody commits while the transaction is open. */
    method NobodyCommits()
      requires InTx() && dialect == Sqlite
      modifies this`clock
      ensures InTx() && clock == old(clock) + 1
    {
      OfferedNext(clock);
      clock := clock + 1;
    }

    /** The moment before a call: others commit, then the call may fail. */
    method Call() returns (ok: bool)
      requires Shared() && if open then InTx() else clock == 0
      modifies this`clock, this`committed, this`view, this`applied
      ensures Shared() && (open ==> InTx())
      ensures old(applied) <= applied
      ensures forall k :: k in locks || Own(k) ==>
                Get(view, k) == old(Get(view, k)) && Get(committed, k) == old(Get(committed, k))
      ensures forall k :: NotWritten(applied, k) ==> NotWritten(old(applied), k)
      ensures forall k :: NotWritten(applied, k) ==>
                Get(view, k) == old(Get(view, k)) && Get(committed, k) == old(Get(committed, k))
      ensures forall gone :: open && old(TasksAgree(gone)) ==> TasksAgree(gone)
      ensures dialect == Sqlite && open ==> view == old(view) && committed == old(committed) && applied == old(applied)
      ensures sched(old(clock)).writes == [] ==>
                view == old(view) && committed == old(committed) && applied == old(applied)
      ensures applied == old(applied) + Admitted(old(clock), locks, open)
      ensures clock == old(clock) + 1 && ok == !sched(old(clock)).fails
      ensures open && old(Follows()) ==> Finds()
    {
      ok := !sched(clock).fails;
      if dialect == Sqlite && open { NobodyCommits(); } else { OthersCommit(); }
      if open && old(Follows()) { CallFinds(old(view)); }
    }

    method BeginTx() returns (ok: bool)
      requires Idle()
      modifies this`clock, this`committed, this`view, this`applied, this`open, this`locks
      ensures ok ==> InTx() && TasksAgree({}) && locks == {} && view == committed
      ensures !ok ==> Shared() && !open
      ensures sched(old(clock)).writes == [] ==> committed == old(committed) && applied == old(applied)
      ensures clock == old(clock) + 1 && ok == !sched(old(clock)).fails
    {
      ok := Call();
      if ok {
        view, open, locks := committed, true, {};
      }
    }

    method WorkspacePrecheck() returns (ok: bool, exists_: bool)
      requires InTx() && TasksAgree({}) && locks == {}
      modifies this`clock, this`committed, this`view, this`applied
      ensures InTx() && TasksAgree({})
      ensures exists_ == ProjectVisible(World(clock), id, ws)
      ensures old(applied) <= applied
      ensures dialect == Sqlite ==> view == old(view) && applied == old(applied)
      ensures sched(old(clock)).writes == [] ==>
                view == old(view) && committed == old(committed) && applied == old(applied)
      ensures forall k :: NotWritten(applied, k) ==> Get(view, k) == old(Get(view, k))
      ensures clock == old(clock) + 1 && ok == !sched(old(clock)).fails
    {
      ok := Call();
      exists_ := ProjectVisible(view, id, ws);
      assert Get(view, RowKey(Projects, id)) == Get(World(clock), RowKey(Projects, id));
    }

    /** `SELECT … WHERE <task column> = ANY(locked) OR project_id = id FOR UPDATE`. */
    function LockByTaskSetOrProject(t: Table): set<Key>
      reads this`view, this`locked
    {
      set k | k in view && Prelocks(t, SetOf(locked), id, k, view[k])
    }

    /** Up to the lock no such row is held. */
    lemma LockFollows()
      requires InTx() && clock <= LOCK_CALL && forall k :: IsRef(k) ==> k !in locks
      ensures Follows()
    {
      forall k | IsRef(k) ensures Tracks(view, locks, SetOf(locked), k, clock) {
        SeenBeforeLock(SetOf(locked), k, clock);
      }
    }

    method TakeTaskLocks() returns (ids: seq<Uuid>)
      requires InTx() && TasksAgree({}) && locks == {}
      modifies this`locks, this`locked
      ensures LockHeld() && locked == ids && Distinct(ids) && SetOf(ids) == TasksOf(view, id, ws)
      ensures forall k :: IsRef(k) ==> k !in locks
    {
      ids := Enumerate(TasksOf(view, id, ws));
      locked := ids;
      locks := set t | t in ids :: RowKey(Tasks, t);
      TasksOfMembers(view, id, ws);
    }

    /** `SELECT id FROM tasks WHERE … FOR UPDATE`, in one statement. */
    method SelectTaskRows() returns (ok: bool, ids: seq<Uuid>)
      requires InTx() && TasksAgree({}) && locks == {}
      modifies this`clock, this`committed, this`view, this`applied, this`locks, this`locked
      ensures Shared() && open && old(applied) <= applied
      ensures ok ==> LockHeld() && locked == ids && Distinct(ids)
      ensures ok ==> SetOf(ids) == TasksOf(World(old(clock) + 1), id, ws)
      ensures ok ==> forall t :: t in ids ==>
                Get(view, RowKey(Tasks, t)) == Get(World(old(clock) + 1), RowKey(Tasks, t))
      ensures forall k :: NotWritten(applied, k) || Own(k) ==> Get(view, k) == old(Get(view, k))
      ensures sched(old(clock)).writes == [] ==> applied == old(applied)
      ensures clock == old(clock) + 1 && ok == !sched(old(clock)).fails
      ensures ok && clock == LOCK_CALL ==> Follows()
    {
      ok := Call();
      ids := [];
      if ok {
        TasksOfSame(view, World(clock), id, ws);
        ids := TakeTaskLocks();
        if clock == LOCK_CALL { LockFollows(); }
      }
    }

    method LockTable(t: Table)
      requires LockHeld() && t != Tasks
      modifies this`locks
      ensures LockHeld()
      ensures forall k :: SightOf(k) == Touched(Lock(t), SetOf(locked), id, now, k, old(SightOf(k)))
    {
      locks := locks + LockByTaskSetOrProject(t);
    }

    method PrelockTable(t: Table) returns (ok: bool)
      requires LockHeld() && t != Tasks
      modifies this`clock, this`committed, this`view, this`applied, this`locks
      ensures LockHeld() && old(applied) <= applied
      ensures forall k :: NotWritten(applied, k) ==> NotWritten(old(applied), k)
      ensures forall k :: NotWritten(applied, k) || Own(k) ==> Get(view, k) == old(Get(view, k))
      ensures forall t :: t in locked ==> Get(view, RowKey(Tasks, t)) == old(Get(view, RowKey(Tasks, t)))
      ensures sched(old(clock)).writes == [] ==> applied == old(applied)
      ensures clock == old(clock) + 1 && ok == !sched(old(clock)).fails
      ensures ok && old(Follows()) && TouchOf(dialect, clock) == Lock(t) ==> Follows()
    {
      ok := Call();
      ghost var v, held := view, locks;
      if ok {
        LockTable(t);
        if old(Follows()) && TouchOf(dialect, clock) == Lock(t) {
          TouchFollows(v, held, TouchOf(dialect, clock));
        }
      }
    }

    method PrelockNext(i: nat) returns (ok: bool)
      requires LockHeld() && i < |PRELOCKED| && dialect == Postgres
      modifies this`clock, this`committed, this`view, this`applied, this`locks
      ensures LockHeld() && old(applied) <= applied
      ensures forall k :: NotWritten(applied, k) ==> NotWritten(old(applied), k)
      ensures forall k :: NotWritten(applied, k) || Own(k) ==> Get(view, k) == old(Get(view, k))
      ensures forall t :: t in locked ==> Get(view, RowKey(Tasks, t)) == old(Get(view, RowKey(Tasks, t)))
      ensures sched(old(clock)).writes == [] ==> applied == old(applied)
      ensures clock == old(clock) + 1 && ok == !sched(old(clock)).fails
      ensures ok && old(Follows()) && clock == LOCK_CALL + i + 1 ==> Follows()
    {
      PrelockDue(i);
      ok := PrelockTable(PRELOCKED[i]);
    }

    /** Locks the rows the cleanups of the four shared tables will update. */
    method PrelockRefRows() returns (ok: bool)
      requires LockHeld() && dialect == Postgres
      modifies this`clock, this`committed, this`view, this`applied, this`locks
      ensures LockHeld() && old(applied) <= applied
      ensures forall k :: NotWritten(applied, k) ==> NotWritten(old(applied), k)
      ensures forall k :: NotWritten(applied, k) || Own(k) ==> Get(view, k) == old(Get(view, k))
      ensures forall t :: t in locked ==> Get(view, RowKey(Tasks, t)) == old(Get(view, RowKey(Tasks, t)))
      ensures Quiet(old(clock), clock) ==> applied == old(applied)
      ensures old(clock) < clock <= old(clock) + 4 && ok == NoFailure(old(clock), clock)
                && (ok ==> clock == old(clock) + 4)
      ensures ok && old(clock) == LOCK_CALL && old(Follows()) ==> Follows()
    {
      var i := 0;
      ok := true;
      ghost var tracked := clock == LOCK_CALL && Follows();
      while i < |PRELOCKED| && ok
        invariant 0 <= i <= |PRELOCKED| && clock == old(clock) + i && (i == 0 ==> ok)
        invariant LockHeld() && old(applied) <= applied
        invariant forall k :: NotWritten(applied, k) ==> NotWritten(old(applied), k)
        invariant forall k :: NotWritten(applied, k) || Own(k) ==> Get(view, k) == old(Get(view, k))
        invariant forall t :: t in locked ==> Get(view, RowKey(Tasks, t)) == old(Get(view, RowKey(Tasks, t)))
        invariant Quiet(old(clock), clock) ==> applied == old(applied)
        invariant ok == NoFailure(old(clock), clock)
        invariant tracked ==> clock == LOCK_CALL + i && (ok ==> Follows())
      {
        QuietStep(old(clock), clock);
        ok := PrelockNext(i);
        i := i + 1;
      }
    }

    /** Reads the project's tasks and, on Postgres, locks them and then the
        reference rows of the four tables that name both a task and a project. */
    method LockTaskRows() returns (ok: bool, ids: seq<Uuid>)
      requires InTx() && TasksAgree({}) && locks == {}
      modifies this`clock, this`committed, this`view, this`applied, this`locks, this`locked
      ensures Shared() && open && old(applied) <= applied
      ensures ok ==> LockHeld() && locked == ids && Distinct(ids)
      ensures ok ==> SetOf(ids) == TasksOf(World(old(clock) + 1), id, ws)
      ensures ok ==> forall t :: t in ids ==>
                Get(view, RowKey(Tasks, t)) == Get(World(old(clock) + 1), RowKey(Tasks, t))
      ensures forall k :: NotWritten(applied, k) || Own(k) ==> Get(view, k) == old(Get(view, k))
      ensures Quiet(old(clock), clock) ==> applied == old(applied)
      ensures old(clock) < clock <= old(clock) + LockCalls(dialect) && ok == NoFailure(old(clock), clock)
      ensures ok ==> clock == old(clock) + LockCalls(dialect)
      ensures ok && old(clock) == CHECK_CALL ==> Follows()
    {
      QuietStep(clock, clock);
      ok, ids := SelectTaskRows();
      if ok && dialect == Postgres {
        ghost var c := clock;
        ok := PrelockRefRows();
        JoinWindows(old(clock), c, clock);
      }
    }

    lemma StatementTouches(st: Step, tasks: set<Uuid>, v: Db, held: set<Key>, k: Key)
      ensures Sight(k in held + Matched(st, tasks, id, v), Get(ApplyStep(st, tasks, id, now, v), k)) ==
              Touched(Clean(st), tasks, id, now, k, Sight(k in held, Get(v, k)))
    {
    }

    method RunStatement(st: Step)
      requires LockHeld() && SparesTasks(st)
      modifies this`view, this`locks
      ensures LockHeld() && locks >= old(locks)
      ensures forall k :: Get(view, k) == StepOpt(st, SetOf(locked), id, now, k, old(Get(view, k)))
      ensures forall t :: t in locked ==> Get(view, RowKey(Tasks, t)) == old(Get(view, RowKey(Tasks, t)))
      ensures forall k :: SightOf(k) == Touched(Clean(st), SetOf(locked), id, now, k, old(SightOf(k)))
    {
      var tasks := if dialect == Postgres then SetOf(locked) else TasksOf(view, id, ws);
      forall k ensures
          Sight(k in locks + Matched(st, tasks, id, view), Get(ApplyStep(st, tasks, id, now, view), k)) ==
          Touched(Clean(st), tasks, id, now, k, SightOf(k))
      {
        StatementTouches(st, tasks, view, locks, k);
      }
      locks := locks + Matched(st, tasks, id, view);
      view := ApplyStep(st, tasks, id, now, view);
      TasksOfSame(view, old(view), id, ws);
    }

    /** This is the call for the statement. The one that drops old tombstones has
        no row that may refer to anything. */
    predicate Due(st: Step, n: nat) {
      TouchOf(dialect, n) == if st.PruneTombstones? then Nothing else Clean(st)
    }

    /** One cleanup statement. Postgres acts on the ids it locked, SQLite selects
        the project's tasks again; under the lock both name the same tasks. */
    method Cleanup(st: Step) returns (ok: bool)
      requires LockHeld() && SparesTasks(st)
      modifies this`clock, this`committed, this`view, this`applied, this`locks
      ensures LockHeld() && locks >= old(locks) && old(applied) <= applied
      ensures forall k :: NotWritten(applied, k) ==> NotWritten(old(applied), k)
      ensures ok ==> forall k :: NotWritten(applied, k) || Own(k) ==>
                Get(view, k) == StepOpt(st, SetOf(locked), id, now, k, old(Get(view, k)))
      ensures forall t :: t in locked ==> Get(view, RowKey(Tasks, t)) == old(Get(view, RowKey(Tasks, t)))
      ensures sched(old(clock)).writes == [] ==> applied == old(applied)
      ensures clock == old(clock) + 1 && ok == !sched(old(clock)).fails
      ensures ok && old(Follows()) && Due(st, clock) ==> Follows()
    {
      ok := Call();
      ghost var v, held := view, locks;
      if ok {
        RunStatement(st);
        if old(Follows()) && Due(st, clock) { TouchFollows(v, held, TouchOf(dialect, clock)); }
      }
    }

    /** Writing rows under the fresh deletion id disturbs nothing else. */
    twostate lemma OwnRowsAdded(keys: set<Key>)
      requires old(LockHeld())
      requires clock == old(clock) && committed == old(committed) && applied == old(applied)
      requires open == old(open) && locked == old(locked) && locks == old(locks) + keys
      requires forall k :: k in keys ==> Own(k)
      requires forall k :: k !in keys ==> Get(view, k) == old(Get(view, k))
      ensures LockHeld()
    {
      forall t ensures Get(view, RowKey(Tasks, t)) == old(Get(view, RowKey(Tasks, t))) {
        assert RowKey(Tasks, t) !in keys;
      }
      TasksOfSame(view, old(view), id, ws);
    }

    method InsertProjectTombstone(author: string, at: int)
      requires LockHeld() && ProjectVisible(view, id, ws) && forall k :: Own(k) ==> k !in view
      modifies this`view, this`locks
      ensures LockHeld() && OwnIs(old(Get(view, RowKey(Projects, id))), map[], author, at, None)
      ensures locks >= old(locks) && forall k :: !Own(k) ==> SightOf(k) == old(SightOf(k))
    {
      var k := TombstoneKey(deletionID, Projects, id);
      view := view[k := Tombstone(author, at, view[RowKey(Projects, id)])];
      locks := locks + {k};
      OwnRowsAdded({k});
    }

    method SnapshotProject(author: string, at: int) returns (ok: bool, ghost project: Option<Row>)
      requires LockHeld() && forall k :: Own(k) ==> k !in view
      modifies this`clock, this`committed, this`view, this`applied, this`locks
      ensures LockHeld() && old(applied) <= applied
      ensures forall k :: NotWritten(applied, k) ==> NotWritten(old(applied), k)
      ensures ok ==> OwnIs(project, map[], author, at, None)
      ensures ok && NotWritten(applied, RowKey(Projects, id)) ==>
                project == (if ProjectVisible(old(view), id, ws) then old(Get(view, RowKey(Projects, id))) else None)
      ensures forall k :: (NotWritten(applied, k) || k in old(locks)) && !Own(k) ==> Get(view, k) == old(Get(view, k))
      ensures sched(old(clock)).writes == [] ==> applied == old(applied)
      ensures clock == old(clock) + 1 && ok == !sched(old(clock)).fails
      ensures old(Follows()) && TouchOf(dialect, clock) == Nothing ==> Follows()
    {
      ok := Call();
      ghost var v, held := view, locks;
      project := None;
      if ok && ProjectVisible(view, id, ws) {
        project := Get(view, RowKey(Projects, id));
        InsertProjectTombstone(author, at);
      }
      if old(Follows()) && TouchOf(dialect, clock) == Nothing { TouchFollows(v, held, Nothing); }
    }

    method InsertTombstones(taken: map<Uuid, Row>, author: string, at: int, ghost project: Option<Row>)
      requires LockHeld() && OwnIs(project, map[], author, at, None) && taken.Keys == SetOf(locked)
      modifies this`view, this`locks
      ensures LockHeld() && OwnIs(project, taken, author, at, None)
      ensures forall k :: !Own(k) ==> SightOf(k) == old(SightOf(k))
    {
      var r, keys := WithTombstones(view, deletionID, taken, author, at);
      view := r;
      locks := locks + keys;
      OwnRowsAdded(keys);
      forall k | Own(k) ensures Get(view, k) == OwnRow(id, project, taken, author, at, None, k) {
        assert old(Get(view, k)) == OwnRow(id, project, map[], author, at, None, k);
      }
    }

    method CopyTasks(author: string, at: int, ghost project: Option<Row>) returns (taken: map<Uuid, Row>)
      requires LockHeld() && OwnIs(project, map[], author, at, None)
      modifies this`view, this`locks
      ensures LockHeld() && OwnIs(project, taken, author, at, None) && taken.Keys == SetOf(locked)
      ensures forall t :: t in locked ==> Some(taken[t]) == old(Get(view, RowKey(Tasks, t)))
      ensures forall k :: !Own(k) ==> SightOf(k) == old(SightOf(k))
    {
      var tasks := if dialect == Postgres then SetOf(locked) else TasksOf(view, id, ws);
      taken := map t | t in tasks && RowKey(Tasks, t) in view :: view[RowKey(Tasks, t)];
      InsertTombstones(taken, author, at, project);
    }

    method SnapshotTasks(author: string, at: int, ghost project: Option<Row>)
      returns (ok: bool, ghost rows: map<Uuid, Row>)
      requires LockHeld() && OwnIs(project, map[], author, at, None)
      modifies this`clock, this`committed, this`view, this`applied, this`locks
      ensures LockHeld() && old(applied) <= applied
      ensures forall k :: NotWritten(applied, k) ==> NotWritten(old(applied), k)
      ensures ok ==> OwnIs(project, rows, author, at, None)
      ensures ok ==> rows.Keys == SetOf(locked) && forall t :: t in locked ==>
                Some(rows[t]) == old(Get(view, RowKey(Tasks, t)))
      ensures forall k :: (NotWritten(applied, k) || k in old(locks)) && !Own(k) ==> Get(view, k) == old(Get(view, k))
      ensures sched(old(clock)).writes == [] ==> applied == old(applied)
      ensures clock == old(clock) + 1 && ok == !sched(old(clock)).fails
      ensures old(Follows()) && TouchOf(dialect, clock) == Nothing ==> Follows()
    {
      ok := Call();
      ghost var v, held := view, locks;
      rows := map[];
      if ok { rows := CopyTasks(author, at, project); }
      if old(Follows()) && TouchOf(dialect, clock) == Nothing { TouchFollows(v, held, Nothing); }
    }

    /** Copies the project row and the locked tasks. */
    method CopyRows(author: string, at: int)
      returns (ok: bool, ghost project: Option<Row>, ghost rows: map<Uuid, Row>)
      requires LockHeld() && forall k :: Own(k) ==> k !in view
      modifies this`clock, this`committed, this`view, this`applied, this`locks
      ensures LockHeld() && old(applied) <= applied
      ensures forall k :: NotWritten(applied, k) ==> NotWritten(old(applied), k)
      ensures ok ==> OwnIs(project, rows, author, at, None)
      ensures ok ==> rows.Keys == SetOf(locked) && forall t :: t in locked ==>
                Some(rows[t]) == old(Get(view, RowKey(Tasks, t)))
      ensures ok && NotWritten(applied, RowKey(Projects, id)) ==>
                project == (if ProjectVisible(old(view), id, ws) then old(Get(view, RowKey(Projects, id))) else None)
      ensures ok ==> forall k :: NotWritten(applied, k) && !Own(k) ==> Get(view, k) == old(Get(view, k))
      ensures Quiet(old(clock), clock) ==> applied == old(applied)
      ensures old(clock) < clock <= old(clock) + 2 && ok == NoFailure(old(clock), clock)
                && (ok ==> clock == old(clock) + 2)
      ensures ok && old(Follows()) && old(clock) == FirstCleanup(dialect) - 3 ==> Follows()
    {
      rows := map[];
      QuietStep(clock, clock);
      if clock == FirstCleanup(dialect) - 3 {
        NothingDue(dialect, clock + 1);
        NothingDue(dialect, clock + 2);
      }
      ok, project := SnapshotProject(author, at);
      if ok {
        QuietStep(old(clock), clock);
        ok, rows := SnapshotTasks(author, at, project);
      }
    }

    lemma ViewRetained(v: Db, at: int)
      ensures forall k: Key :: k.TombstoneKey? && Get(view, k) == StepOpt(PruneTombstones(at - TOMBSTONE_RETENTION),
                  SetOf(locked), id, now, k, Get(v, k)) ==>
                Retained(k, Get(v, k), Get(view, k), at)
    {
      forall k: Key | k.TombstoneKey? && Get(view, k) == StepOpt(PruneTombstones(at - TOMBSTONE_RETENTION),
          SetOf(locked), id, now, k, Get(v, k))
        ensures Retained(k, Get(v, k), Get(view, k), at)
      {
        PruneRetains(SetOf(locked), id, ws, now, at, k, Get(v, k));
      }
    }

    /** The snapshot: old tombstones go, the project row and the locked tasks are
        copied. Nothing else has been written yet. */
    method SnapshotProjectAndTasks(author: string, at: int)
      returns (ok: bool, ghost project: Option<Row>, ghost rows: map<Uuid, Row>)
      requires LockHeld() && forall k :: Own(k) ==> k !in view
      modifies this`clock, this`committed, this`view, this`applied, this`locks
      ensures Shared() && open && old(applied) <= applied
      ensures forall k :: NotWritten(applied, k) ==> NotWritten(old(applied), k)
      ensures ok ==> LockHeld() && OwnIs(project, rows, author, at, None)
      ensures ok ==> rows.Keys == SetOf(locked) && forall t :: t in locked ==>
                Some(rows[t]) == old(Get(view, RowKey(Tasks, t)))
      ensures ok && NotWritten(applied, RowKey(Projects, id)) ==>
                project == (if ProjectVisible(old(view), id, ws) then old(Get(view, RowKey(Projects, id))) else None)
      ensures ok ==> forall k :: NotWritten(applied, k) && !Own(k) ==>
                Get(view, k) == StepOpt(PruneTombstones(at - TOMBSTONE_RETENTION), SetOf(locked), id, now, k,
                  old(Get(view, k)))
      ensures Quiet(old(clock), clock) ==> applied == old(applied)
      ensures old(clock) < clock <= old(clock) + 3 && ok == NoFailure(old(clock), clock)
                && (ok ==> clock == old(clock) + 3)
      ensures ok && old(Follows()) && old(clock) == CHECK_CALL + LockCalls(dialect) ==> Follows()
      ensures ok ==> forall k: Key :: k.TombstoneKey? && NotWritten(applied, k) && !Own(k) ==>
                Retained(k, old(Get(view, k)), Get(view, k), at)
    {
      project, rows := None, map[];
      QuietStep(clock, clock);
      if clock == CHECK_CALL + LockCalls(dialect) { NothingDue(dialect, clock + 1); }
      ok := Cleanup(PruneTombstones(at - TOMBSTONE_RETENTION));
      if ok {
        ghost var c := clock;
        ok, project, rows := CopyRows(author, at);
        JoinWindows(old(clock), c, clock);
        ViewRetained(old(view), at);
      }
    }

    /** After the tasks are deleted: they are gone, and locked as such. */
    ghost predicate TasksGone(gone: set<Uuid>)
      reads this
    {
      InTx() && TasksAgree(gone) && TaskLocksAre(gone) && forall t :: t in gone ==> RowKey(Tasks, t) !in view
    }

    /** The project's tasks now: the locked ones, which nobody could change, and
        whatever the others have put there. */
    lemma TasksNow()
      requires LockHeld()
      ensures TasksOf(view, id, ws) == TasksOf(committed, id, ws) == SetOf(locked) + TasksOf(World(clock), id, ws)
    {
      TasksOfSame(view, committed, id, ws);
      forall t ensures t in TasksOf(view, id, ws) <==> t in locked || t in TasksOf(World(clock), id, ws) {
        TasksOfMembers(view, id, ws);
        TasksOfMembers(World(clock), id, ws);
        if t !in locked { assert Get(view, RowKey(Tasks, t)) == Get(World(clock), RowKey(Tasks, t)); }
      }
    }

    method RemoveTasks() returns (ids: seq<Uuid>)
      requires LockHeld()
      modifies this`view, this`locks
      ensures Distinct(ids) && SetOf(ids) == old(TasksOf(view, id, ws)) && TasksGone(SetOf(ids))
      ensures forall k ::
                Get(view, k) == if k.RowKey? && k.table == Tasks && k.id in ids then None else old(Get(view, k))
      ensures forall k :: IsRef(k) ==> SightOf(k) == old(SightOf(k))
    {
      var gone := TasksOf(view, id, ws);
      ids := Enumerate(gone);
      var keys := set t | t in gone :: RowKey(Tasks, t);
      TasksOfMembers(view, id, ws);
      view := view - keys;
      locks := locks + keys;
    }

    /** `DELETE FROM tasks WHERE project_id = … RETURNING id`: whatever is there
        now, whether it was locked or not. */
    method DeleteTaskRows() returns (ok: bool, ids: seq<Uuid>)
      requires LockHeld()
      modifies this`clock, this`committed, this`view, this`applied, this`locks
      ensures Shared() && open && old(applied) <= applied
      ensures forall k :: NotWritten(applied, k) ==> NotWritten(old(applied), k)
      ensures ok ==> Distinct(ids) && TasksGone(SetOf(ids))
      ensures ok ==> SetOf(ids) == TasksOf(committed, id, ws) == SetOf(locked) + TasksOf(World(clock), id, ws)
      ensures ok ==> forall k :: NotWritten(applied, k) || Own(k) ==>
                Get(view, k) == if k.RowKey? && k.table == Tasks && k.id in ids then None else old(Get(view, k))
      ensures sched(old(clock)).writes == [] ==> applied == old(applied)
      ensures clock == old(clock) + 1 && ok == !sched(old(clock)).fails
      ensures old(Follows()) && TouchOf(dialect, clock) == Nothing ==> Follows()
    {
      ok := Call();
      ghost var v, held := view, locks;
      ids := [];
      if ok {
        TasksNow();
        ids := RemoveTasks();
      }
      if old(Follows()) && TouchOf(dialect, clock) == Nothing { TouchFollows(v, held, Nothing); }
    }

    method RemoveProject(ghost gone: set<Uuid>)
      requires TasksGone(gone)
      modifies this`view, this`locks
      ensures TasksGone(gone)
      ensures forall k :: Get(view, k) == if k == RowKey(Projects, id) then None else old(Get(view, k))
      ensures forall k :: k in locks <==> k == RowKey(Projects, id) || k in old(locks)
    {
      locks := locks + {RowKey(Projects, id)};
      view := view - {RowKey(Projects, id)};
    }

    method DeleteProjectRow(ghost gone: set<Uuid>) returns (ok: bool)
      requires TasksGone(gone)
      modifies this`clock, this`committed, this`view, this`applied, this`locks
      ensures TasksGone(gone) && old(applied) <= applied
      ensures forall k :: NotWritten(applied, k) ==> NotWritten(old(applied), k)
      ensures ok ==> forall k :: NotWritten(applied, k) || Own(k) ==>
                Get(view, k) == if k == RowKey(Projects, id) && ProjectVisible(old(view), id, ws) then None
                  else old(Get(view, k))
      ensures sched(old(clock)).writes == [] ==> applied == old(applied)
      ensures applied == old(applied) + Admitted(old(clock), old(locks), true)
      ensures clock == old(clock) + 1 && ok == !sched(old(clock)).fails
      ensures old(Follows()) && TouchOf(dialect, clock) == Nothing ==> Follows()
    {
      ok := Call();
      ghost var v, held := view, locks;
      if ok && ProjectVisible(view, id, ws) { RemoveProject(gone); }
      if old(Follows()) && TouchOf(dialect, clock) == Nothing { TouchFollows(v, held, Nothing); }
    }

    method InsertAudit(author: string, taskCount: nat, ghost gone: set<Uuid>, ghost project: Option<Row>,
                       ghost rows: map<Uuid, Row>, ghost at: int)
      requires TasksGone(gone) && OwnIs(project, rows, author, at, None)
      modifies this`view, this`locks
      ensures TasksGone(gone) && OwnIs(project, rows, author, at, Some(Audit(author, id, taskCount)))
      ensures forall k :: !Own(k) ==> SightOf(k) == old(SightOf(k))
    {
      var k := AuditKey(deletionID);
      view := view[k := Audit(author, id, taskCount)];
      locks := locks + {k};
    }

    method WriteDeletionAuditLog(author: string, taskCount: nat, ghost gone: set<Uuid>, ghost project: Option<Row>,
                                 ghost rows: map<Uuid, Row>, ghost at: int)
      returns (ok: bool)
      requires TasksGone(gone) && OwnIs(project, rows, author, at, None)
      modifies this`clock, this`committed, this`view, this`applied, this`locks
      ensures TasksGone(gone) && old(applied) <= applied
      ensures forall k :: NotWritten(applied, k) ==> NotWritten(old(applied), k)
      ensures ok ==> OwnIs(project, rows, author, at, Some(Audit(author, id, taskCount)))
      ensures forall k :: NotWritten(applied, k) && !Own(k) ==> Get(view, k) == old(Get(view, k))
      ensures sched(old(clock)).writes == [] ==> applied == old(applied)
      ensures applied == old(applied) + Admitted(old(clock), old(locks), true)
      ensures clock == old(clock) + 1 && ok == !sched(old(clock)).fails
      ensures old(Follows()) && TouchOf(dialect, clock) == Nothing ==> Follows()
    {
      ok := Call();
      ghost var v, held := view, locks;
      if ok { InsertAudit(author, taskCount, gone, project, rows, at); }
      if old(Follows()) && TouchOf(dialect, clock) == Nothing { TouchFollows(v, held, Nothing); }
    }

    method Commit(ghost gone: set<Uuid>) returns (ok: bool)
      requires TasksGone(gone)
      modifies this`clock, this`committed, this`view, this`applied, this`open
      ensures old(applied) <= applied
      ensures forall k :: NotWritten(applied, k) ==> NotWritten(old(applied), k)
      ensures ok ==> !open && (forall k :: NotWritten(applied, k) || Own(k) ==> Get(committed, k) == old(Get(view, k)))
      ensures ok ==> forall t ::
                Get(committed, RowKey(Tasks, t)) ==
                  if t in gone then None else Get(Replay(base, applied), RowKey(Tasks, t))
      ensures ok ==> forall t :: t !in gone ==> Get(committed, RowKey(Tasks, t)) == Get(World(clock), RowKey(Tasks, t))
      ensures ok ==> forall k :: NotWritten(Offered(clock), k) ==> NotWritten(applied, k)
      ensures !ok ==> Shared()
      ensures sched(old(clock)).writes == [] ==> applied == old(applied)
      ensures applied == old(applied) + Admitted(old(clock), old(locks), true)
      ensures clock == old(clock) + 1 && ok == !sched(old(clock)).fails
      ensures ok && old(Follows()) && TouchOf(dialect, clock) == Nothing ==> RefsFollow()
    {
      ok := Call();
      if old(Follows()) && TouchOf(dialect, clock) == Nothing { TouchFollows(view, locks, Nothing); }
      if ok {
        assert forall t :: t in gone ==> Get(view, RowKey(Tasks, t)) == None;
        committed, open := view, false;
      }
    }

    /** A rollback after the commit does nothing. */
    method Rollback()
      modifies this`open
      ensures !open
    {
      open := false;
    }
  }

  // ----- the orchestration -----

  /** Rows nobody else wrote have been through exactly the statements so far. */
  ghost predicate Cleaned(a: DeleteProjectAdapter, steps: seq<Step>)
    reads a`view, a`applied, a`locked
  {
    forall k :: NotWritten(a.applied, k) && !a.Own(k) ==>
      Get(a.view, k) == After(steps, SetOf(a.locked), a.id, a.now, k, Get(a.base, k))
  }

  lemma CleanupsSpareTasks()
    ensures forall i :: 0 <= i < |CLEANUPS| ==> SparesTasks(CLEANUPS[i]) && !CLEANUPS[i].PruneTombstones?
  {
  }

  ghost predicate DueAt(a: DeleteProjectAdapter, steps: seq<Step>, i: nat, clock: nat)
    requires i < |steps|
  {
    a.Due(steps[i], clock + i + 1)
  }

  /** These are the next calls. */
  ghost predicate AllDue(a: DeleteProjectAdapter, steps: seq<Step>, clock: nat) {
    forall i :: 0 <= i < |steps| ==> DueAt(a, steps, i, clock)
  }

  method RunCleanup(a: DeleteProjectAdapter, st: Step, ghost done: seq<Step>, ghost project: Option<Row>,
                    ghost rows: map<Uuid, Row>, ghost author: string, ghost at: int)
    returns (ok: bool)
    requires a.LockHeld() && Cleaned(a, done) && a.OwnIs(project, rows, author, at, None)
    requires SparesTasks(st) && !st.PruneTombstones?
    modifies a`clock, a`committed, a`view, a`applied, a`locks
    ensures a.LockHeld() && old(a.applied) <= a.applied
    ensures ok ==> Cleaned(a, done + [st]) && a.OwnIs(project, rows, author, at, None)
    ensures forall t :: t in a.locked ==> Get(a.view, RowKey(Tasks, t)) == old(Get(a.view, RowKey(Tasks, t)))
    ensures a.sched(old(a.clock)).writes == [] ==> a.applied == old(a.applied)
    ensures a.clock == old(a.clock) + 1 && ok == !a.sched(old(a.clock)).fails
    ensures ok && old(a.Follows()) && a.Due(st, a.clock) ==> a.Follows()
  {
    ok := a.Cleanup(st);
    if ok {
      forall k | NotWritten(a.applied, k) && !a.Own(k)
        ensures Get(a.view, k) == After(done + [st], SetOf(a.locked), a.id, a.now, k, Get(a.base, k))
      {
        AfterConcat(done, [st], SetOf(a.locked), a.id, a.now, k, Get(a.base, k));
        assert [st][..0] == [];
      }
      forall k | a.Own(k) ensures Get(a.view, k) == OwnRow(a.id, project, rows, author, at, None, k) {
        assert old(Get(a.view, k)) == OwnRow(a.id, project, rows, author, at, None, k);
      }
    }
  }

  method RunNext(a: DeleteProjectAdapter, steps: seq<Step>, i: nat, ghost done: seq<Step>, ghost project: Option<Row>,
                 ghost rows: map<Uuid, Row>, ghost author: string, ghost at: int, ghost start: nat)
    returns (ok: bool)
    requires i < |steps| && a.LockHeld() && Cleaned(a, done) && a.OwnIs(project, rows, author, at, None)
    requires SparesTasks(steps[i]) && !steps[i].PruneTombstones?
    modifies a`clock, a`committed, a`view, a`applied, a`locks
    ensures a.LockHeld() && old(a.applied) <= a.applied
    ensures ok ==> Cleaned(a, done + [steps[i]]) && a.OwnIs(project, rows, author, at, None)
    ensures forall t :: t in a.locked ==> Get(a.view, RowKey(Tasks, t)) == old(Get(a.view, RowKey(Tasks, t)))
    ensures a.sched(old(a.clock)).writes == [] ==> a.applied == old(a.applied)
    ensures a.clock == old(a.clock) + 1 && ok == !a.sched(old(a.clock)).fails
    ensures ok && old(a.Follows()) && old(a.clock) == start + i && DueAt(a, steps, i, start) ==> a.Follows()
  {
    ok := RunCleanup(a, steps[i], done, project, rows, author, at);
  }

  method RunSteps(a: DeleteProjectAdapter, steps: seq<Step>, ghost done: seq<Step>, ghost project: Option<Row>,
                  ghost rows: map<Uuid, Row>, ghost author: string, ghost at: int)
    returns (ok: bool)
    requires a.LockHeld() && Cleaned(a, done) && a.OwnIs(project, rows, author, at, None)
    requires forall i :: 0 <= i < |steps| ==> SparesTasks(steps[i]) && !steps[i].PruneTombstones?
    modifies a`clock, a`committed, a`view, a`applied, a`locks
    ensures a.LockHeld() && old(a.applied) <= a.applied
    ensures ok ==> Cleaned(a, done + steps) && a.OwnIs(project, rows, author, at, None)
    ensures forall t :: t in a.locked ==> Get(a.view, RowKey(Tasks, t)) == old(Get(a.view, RowKey(Tasks, t)))
    ensures a.Quiet(old(a.clock), a.clock) ==> a.applied == old(a.applied)
    ensures ok == a.NoFailure(old(a.clock), a.clock)
    ensures old(a.clock) <= a.clock <= old(a.clock) + |steps| && (ok ==> a.clock == old(a.clock) + |steps|)
    ensures ok && old(a.Follows()) && AllDue(a, steps, old(a.clock)) ==> a.Follows()
  {
    var i := 0;
    ok := true;
    ghost var sofar, start, v := done, a.clock, a.view;
    ghost var tracked := a.Follows() && AllDue(a, steps, start);
    assert sofar == done + steps[..i];
    while i < |steps| && ok
      invariant 0 <= i <= |steps| && sofar == done + steps[..i]
      invariant a.LockHeld() && old(a.applied) <= a.applied
      invariant ok ==> Cleaned(a, sofar) && a.OwnIs(project, rows, author, at, None)
      invariant forall t :: t in a.locked ==> Get(a.view, RowKey(Tasks, t)) == Get(v, RowKey(Tasks, t))
      invariant a.Quiet(start, a.clock) ==> a.applied == old(a.applied)
      invariant ok && tracked ==> a.Follows()
      invariant a.clock == start + i && ok == a.NoFailure(start, a.clock)
    {
      a.QuietStep(start, a.clock);
      ExtendTake(done, steps, i);
      ok := RunNext(a, steps, i, sofar, project, rows, author, at, start);
      sofar, i := sofar + [steps[i]], i + 1;
    }
    TakeAll(steps);
  }

  lemma CleanupsDue(a: DeleteProjectAdapter, clock: nat)
    requires clock + 1 == FirstCleanup(a.dialect)
    ensures AllDue(a, CLEANUPS, clock)
  {
    forall i | 0 <= i < |CLEANUPS| ensures DueAt(a, CLEANUPS, i, clock) { CleanupDue(a.dialect, i); }
  }

  /** The reference cleanups, in order, stopping at the first failure. */
  method RunCleanups(a: DeleteProjectAdapter, ghost done: seq<Step>, ghost project: Option<Row>,
                     ghost rows: map<Uuid, Row>, ghost author: string, ghost at: int)
    returns (ok: bool)
    requires a.LockHeld() && Cleaned(a, done) && a.OwnIs(project, rows, author, at, None)
    modifies a`clock, a`committed, a`view, a`applied, a`locks
    ensures a.LockHeld() && old(a.applied) <= a.applied
    ensures ok ==> Cleaned(a, done + CLEANUPS) && a.OwnIs(project, rows, author, at, None)
    ensures forall t :: t in a.locked ==> Get(a.view, RowKey(Tasks, t)) == old(Get(a.view, RowKey(Tasks, t)))
    ensures a.Quiet(old(a.clock), a.clock) ==> a.applied == old(a.applied)
    ensures ok == a.NoFailure(old(a.clock), a.clock)
    ensures old(a.clock) <= a.clock <= old(a.clock) + |CLEANUPS| && (ok ==> a.clock == old(a.clock) + |CLEANUPS|)
    ensures ok && old(a.Follows()) && old(a.clock) + 1 == FirstCleanup(a.dialect) ==> a.Follows()
  {
    CleanupsSpareTasks();
    if a.clock + 1 == FirstCleanup(a.dialect) { CleanupsDue(a, a.clock); }
    ok := RunSteps(a, CLEANUPS, done, project, rows, author, at);
  }

  lemma {:induction false} AfterNone(steps: seq<Step>, tasks: set<Uuid>, p: Uuid, now: int, k: Key)
    ensures After(steps, tasks, p, now, k, None) == None
    decreases |steps|
  {
    if |steps| > 0 { AfterNone(steps[..|steps| - 1], tasks, p, now, k); }
  }

  /** Snapshot, cleanups, deletes and audit give the expected row. */
  lemma ExpectedRow(tasks: set<Uuid>, p: Uuid, ws: Option<Uuid>, now: int, cutoff: int, k: Key, r: Option<Row>)
    ensures var clean := After([PruneTombstones(cutoff)] + CLEANUPS, tasks, p, now, k, r);
            var dropped := if k.RowKey? && k.table == Tasks && k.id in tasks then None else clean;
            Expected(tasks, p, ws, now, cutoff, k, r)
            == if k == RowKey(Projects, p) && dropped.Some? && InScope(ws, dropped.value) then None else dropped
  {
    AfterConcat([PruneTombstones(cutoff)], CLEANUPS, tasks, p, now, k, r);
    var first := After([PruneTombstones(cutoff)], tasks, p, now, k, r);
    assert [PruneTombstones(cutoff)][..0] == [];
    assert first == StepOpt(PruneTombstones(cutoff), tasks, p, now, k, r);
    if first.Some? {
      CleanupsAreScrub(tasks, p, now, k, first.value);
    } else {
      AfterNone(CLEANUPS, tasks, p, now, k);
    }
  }

  /** Right after the snapshot, rows nobody else wrote are only pruned. */
  lemma PrunedOnly(a: DeleteProjectAdapter, before: Db, cutoff: int)
    requires forall k :: NotWritten(a.applied, k) && !a.Own(k) ==>
      && Get(before, k) == Get(a.base, k)
      && Get(a.view, k) == StepOpt(PruneTombstones(cutoff), SetOf(a.locked), a.id, a.now, k, Get(before, k))
    ensures Cleaned(a, [PruneTombstones(cutoff)])
  {
    assert [PruneTombstones(cutoff)][..0] == [];
  }

  /** What the committed store holds after a delete that took the tasks
      `a.locked` and found `project` and `rows` when it copied them. */
  ghost predicate Committed(a: DeleteProjectAdapter, before: Db, author: string, at: int, project: Option<Row>,
                            rows: map<Uuid, Row>)
    reads a`clock, a`committed, a`applied, a`locked
  {
    && rows.Keys == SetOf(a.locked)
    && (forall k :: a.Own(k) ==>
         Get(a.committed, k) == OwnRow(a.id, project, rows, author, at, Some(Audit(author, a.id, |a.locked|)), k))
    && (forall k :: NotWritten(a.applied, k) && !a.Own(k) ==>
          Get(a.committed, k) == Expected(SetOf(a.locked), a.id, a.ws, a.now, at - TOMBSTONE_RETENTION, k,
            Get(before, k)))
    && (forall t :: Get(a.committed, RowKey(Tasks, t)) ==
          if t in a.locked then None else Get(Replay(before, a.applied), RowKey(Tasks, t)))
    && (forall k :: NotWritten(a.Offered(a.clock), k) ==> NotWritten(a.applied, k))
    && (forall t :: t !in a.locked ==>
          Get(a.committed, RowKey(Tasks, t)) == Get(Replay(before, a.Offered(a.clock)), RowKey(Tasks, t)))
  }

  /** Rows nobody else wrote, once the task rows are gone as well. */
  ghost predicate Dropped(a: DeleteProjectAdapter, cutoff: int)
    reads a`view, a`applied, a`locked
  {
    forall k :: NotWritten(a.applied, k) && !a.Own(k) ==>
      Get(a.view, k) == if k.RowKey? && k.table == Tasks && k.id in a.locked then None
                        else After([PruneTombstones(cutoff)] + CLEANUPS, SetOf(a.locked), a.id, a.now, k,
                          Get(a.base, k))
  }

  /** All thirteen cleanups lie behind this reading of the clock. */
  ghost predicate CleanupsAreOver(a: DeleteProjectAdapter, clock: nat) {
    FirstCleanup(a.dialect) + |CLEANUPS| <= clock + 1
  }

  lemma OverIsNothing(a: DeleteProjectAdapter, clock: nat)
    ensures CleanupsAreOver(a, clock) ==>
              forall n :: clock < n ==> TouchOf(a.dialect, n) == Nothing
  {
    forall n | CleanupsAreOver(a, clock) && clock < n ensures TouchOf(a.dialect, n) == Nothing {
      NothingDue(a.dialect, n);
    }
  }

  /** Deletes the project row and writes the audit entry. */
  method DeleteRowAndAudit(a: DeleteProjectAdapter, author: string, at: int, ghost project: Option<Row>,
                           ghost rows: map<Uuid, Row>)
    returns (ok: bool)
    requires a.TasksGone(SetOf(a.locked)) && Dropped(a, at - TOMBSTONE_RETENTION)
    requires a.OwnIs(project, rows, author, at, None)
    modifies a`clock, a`committed, a`view, a`applied, a`locks
    ensures old(a.applied) <= a.applied && a.TasksGone(SetOf(a.locked))
    ensures ok ==> a.OwnIs(project, rows, author, at, Some(Audit(author, a.id, |a.locked|)))
    ensures ok ==> forall k :: NotWritten(a.applied, k) && !a.Own(k) ==>
              Get(a.view, k) == Expected(SetOf(a.locked), a.id, a.ws, a.now, at - TOMBSTONE_RETENTION, k,
                Get(a.base, k))
    ensures ok == a.NoFailure(old(a.clock), a.clock)
    ensures a.Quiet(old(a.clock), a.clock) ==> a.applied == old(a.applied)
    ensures old(a.clock) < a.clock <= old(a.clock) + 2 && (ok ==> a.clock == old(a.clock) + 2)
    ensures ok && old(a.Follows()) && CleanupsAreOver(a, old(a.clock)) ==> a.Follows()
  {
    ghost var c := a.clock;
    ghost var tasks := SetOf(a.locked);
    ghost var cutoff := at - TOMBSTONE_RETENTION;
    a.QuietStep(c, c);
    OverIsNothing(a, c);
    ok := a.DeleteProjectRow(tasks);
    if ok {
      ghost var v1 := a.view;
      forall k | NotWritten(a.applied, k) && !a.Own(k)
        ensures Get(v1, k) == Expected(tasks, a.id, a.ws, a.now, cutoff, k, Get(a.base, k))
      {
        ExpectedRow(tasks, a.id, a.ws, a.now, cutoff, k, Get(a.base, k));
      }
      assert a.OwnIs(project, rows, author, at, None);
      a.QuietStep(c, c + 1);
      ok := a.WriteDeletionAuditLog(author, |a.locked|, tasks, project, rows, at);
    }
  }

  /** Deletes the project row, writes the audit entry and commits. */
  method FinishDelete(a: DeleteProjectAdapter, author: string, at: int, ghost project: Option<Row>,
                      ghost rows: map<Uuid, Row>)
    returns (ok: bool)
    requires a.TasksGone(SetOf(a.locked)) && Dropped(a, at - TOMBSTONE_RETENTION)
    requires a.OwnIs(project, rows, author, at, None) && rows.Keys == SetOf(a.locked)
    modifies a`clock, a`committed, a`view, a`applied, a`locks, a`open
    ensures old(a.applied) <= a.applied
    ensures ok ==> Committed(a, a.base, author, at, project, rows)
    ensures !ok ==> a.Shared()
    ensures ok == a.NoFailure(old(a.clock), a.clock)
    ensures a.Quiet(old(a.clock), a.clock) ==> a.applied == old(a.applied)
    ensures old(a.clock) < a.clock <= old(a.clock) + 3 && (ok ==> a.clock == old(a.clock) + 3)
    ensures ok && old(a.Follows()) && CleanupsAreOver(a, old(a.clock)) ==> a.RefsFollow()
  {
    ghost var c := a.clock;
    OverIsNothing(a, c);
    ok := DeleteRowAndAudit(a, author, at, project, rows);
    if ok {
      a.QuietStep(c, a.clock);
      ok := a.Commit(SetOf(a.locked));
    }
  }

  lemma SameDigest(ids: seq<Uuid>, locked: seq<Uuid>)
    requires Distinct(ids) && Distinct(locked)
    ensures D.DigestOf(ids) == D.DigestOf(locked) <==> SetOf(ids) == SetOf(locked)
  {
    D.DigestIffSameSet(ids, locked);
    if SetOf(ids) == SetOf(locked) {
      forall x: Uuid ensures x in ids <==> x in locked {
        assert x in SetOf(ids) <==> x in SetOf(locked);
      }
    }
  }

  /** Deletes the task rows and compares them with the locked ones. */
  method DeleteAndCompare(a: DeleteProjectAdapter, lockedDigest: D.Digest, ghost cutoff: int,
                          ghost project: Option<Row>, ghost rows: map<Uuid, Row>, ghost author: string, ghost at: int)
    returns (ok: bool, same: bool)
    requires a.LockHeld() && Distinct(a.locked) && lockedDigest == D.DigestOf(a.locked)
    requires Cleaned(a, [PruneTombstones(cutoff)] + CLEANUPS) && a.OwnIs(project, rows, author, at, None)
    modifies a`clock, a`committed, a`view, a`applied, a`locks
    ensures a.Shared() && old(a.applied) <= a.applied && a.clock == old(a.clock) + 1
    ensures ok == !a.sched(old(a.clock)).fails
    ensures ok ==> (same <==> TasksOf(a.World(a.clock), a.id, a.ws) <= SetOf(a.locked))
    ensures ok && same ==>
              a.TasksGone(SetOf(a.locked)) && Dropped(a, cutoff) && a.OwnIs(project, rows, author, at, None)
    ensures a.sched(old(a.clock)).writes == [] ==> a.applied == old(a.applied)
    ensures old(a.Follows()) && TouchOf(a.dialect, a.clock) == Nothing ==> a.Follows()
  {
    var ids;
    ok, ids := a.DeleteTaskRows();
    same := false;
    if ok {
      var digest := D.TaskSetDigest(ids);
      SameDigest(ids, a.locked);
      same := digest == lockedDigest;
    }
  }

  /** Deletes the rows, writes the audit entry and commits. What was deleted is
      what is there at that call: more than the locked tasks is refused. */
  method DeleteRowsAndCommit(a: DeleteProjectAdapter, author: string, at: int, lockedDigest: D.Digest,
                             ghost project: Option<Row>, ghost rows: map<Uuid, Row>)
    returns (r: Outcome)
    requires a.LockHeld() && Distinct(a.locked) && lockedDigest == D.DigestOf(a.locked)
    requires Cleaned(a, [PruneTombstones(at - TOMBSTONE_RETENTION)] + CLEANUPS)
    requires a.OwnIs(project, rows, author, at, None) && rows.Keys == SetOf(a.locked)
    modifies a`clock, a`committed, a`view, a`applied, a`locks, a`open
    ensures old(a.applied) <= a.applied
    ensures !r.NotFound? && (r.StepFailed? <==> !a.NoFailure(old(a.clock), a.clock))
    ensures r.Deleted? ==> r.taskCount == |a.locked| && Committed(a, a.base, author, at, project, rows)
    ensures !r.Deleted? ==> a.Shared()
    ensures !r.StepFailed? ==> (r.Deleted? <==> TasksOf(a.World(old(a.clock) + 1), a.id, a.ws) <= SetOf(a.locked))
    ensures old(a.clock) < a.clock <= old(a.clock) + 4
    ensures (r.Deleted? ==> a.clock == old(a.clock) + 4) && (r.TasksChanged? ==> a.clock == old(a.clock) + 1)
    ensures a.Quiet(old(a.clock), a.clock) ==> a.applied == old(a.applied)
    ensures r.Deleted? && old(a.Follows()) && CleanupsAreOver(a, old(a.clock)) ==> a.RefsFollow()
  {
    ghost var c := a.clock;
    a.QuietStep(c, c);
    OverIsNothing(a, c);
    var ok, same := DeleteAndCompare(a, lockedDigest, at - TOMBSTONE_RETENTION, project, rows, author, at);
    if !ok { return StepFailed; }
    if !same { return TasksChanged; }
    ok := FinishDelete(a, author, at, project, rows);
    a.JoinWindows(c, c + 1, a.clock);
    r := if ok then Deleted(|a.locked|) else StepFailed;
  }

  lemma PrefixNotWritten(a: seq<Write>, b: seq<Write>, k: Key)
    requires a <= b
    ensures NotWritten(b, k) ==> NotWritten(a, k)
  {
  }

  /** Copies the project and its tasks, then clears the references to them. */
  method SnapshotAndClean(a: DeleteProjectAdapter, author: string, at: int)
    returns (ok: bool, ghost project: Option<Row>, ghost rows: map<Uuid, Row>)
    requires a.LockHeld() && Cleaned(a, []) && forall k :: a.Own(k) ==> k !in a.view
    modifies a`clock, a`committed, a`view, a`applied, a`locks
    ensures a.Shared() && old(a.applied) <= a.applied && ok == a.NoFailure(old(a.clock), a.clock)
    ensures ok ==> a.LockHeld() && Cleaned(a, [PruneTombstones(at - TOMBSTONE_RETENTION)] + CLEANUPS)
    ensures ok ==> a.OwnIs(project, rows, author, at, None) && rows.Keys == SetOf(a.locked)
    ensures ok ==> forall t :: t in a.locked ==> Some(rows[t]) == old(Get(a.view, RowKey(Tasks, t)))
    ensures ok && NotWritten(a.applied, RowKey(Projects, a.id)) && ProjectVisible(a.base, a.id, a.ws) ==>
              project == Get(a.base, RowKey(Projects, a.id))
    ensures old(a.clock) < a.clock < old(a.clock) + SNAPSHOT_TO_DELETE
    ensures ok ==> a.clock == old(a.clock) + SNAPSHOT_TO_DELETE - 1
    ensures a.Quiet(old(a.clock), a.clock) ==> a.applied == old(a.applied)
    ensures ok && old(a.Follows()) && old(a.clock) == CHECK_CALL + LockCalls(a.dialect) ==> a.Follows()
  {
    ghost var c, v := a.clock, a.view;
    ghost var pk := RowKey(Projects, a.id);
    ok, project, rows := a.SnapshotProjectAndTasks(author, at);
    if !ok { return; }
    PrunedOnly(a, v, at - TOMBSTONE_RETENTION);
    ghost var c1, w1 := a.clock, a.applied;
    assert NotWritten(w1, pk) ==> Get(v, pk) == Get(a.base, pk);
    ok := RunCleanups(a, [PruneTombstones(at - TOMBSTONE_RETENTION)], project, rows, author, at);
    a.JoinWindows(c, c1, a.clock);
    PrefixNotWritten(w1, a.applied, pk);
  }

  /** The part of the orchestration after the digest check. */
  method SnapshotCleanDelete(a: DeleteProjectAdapter, author: string, at: int, lockedDigest: D.Digest)
    returns (r: Outcome, ghost project: Option<Row>, ghost rows: map<Uuid, Row>)
    requires a.LockHeld() && Distinct(a.locked) && lockedDigest == D.DigestOf(a.locked)
    requires Cleaned(a, []) && forall k :: a.Own(k) ==> k !in a.view
    modifies a`clock, a`committed, a`view, a`applied, a`locks, a`open
    ensures old(a.applied) <= a.applied
    ensures !r.NotFound? && (r.StepFailed? <==> !a.NoFailure(old(a.clock), a.clock))
    ensures !r.Deleted? ==> a.Shared()
    ensures r.Deleted? ==> r.taskCount == |a.locked| && Committed(a, a.base, author, at, project, rows)
    ensures r.Deleted? ==> forall t :: t in a.locked ==> Some(rows[t]) == old(Get(a.view, RowKey(Tasks, t)))
    ensures r.Deleted? && NotWritten(a.applied, RowKey(Projects, a.id)) && ProjectVisible(a.base, a.id, a.ws) ==>
              project == Get(a.base, RowKey(Projects, a.id))
    ensures !r.StepFailed? ==>
              (r.Deleted? <==> TasksOf(a.World(old(a.clock) + SNAPSHOT_TO_DELETE), a.id, a.ws) <= SetOf(a.locked))
    ensures old(a.clock) < a.clock <= old(a.clock) + SNAPSHOT_TO_DELETE + 3
    ensures r.Deleted? ==> a.clock == old(a.clock) + SNAPSHOT_TO_DELETE + 3
    ensures r.TasksChanged? ==> a.clock == old(a.clock) + SNAPSHOT_TO_DELETE
    ensures a.Quiet(old(a.clock), a.clock) ==> a.applied == old(a.applied)
    ensures r.Deleted? && old(a.Follows()) && old(a.clock) == CHECK_CALL + LockCalls(a.dialect) ==> a.RefsFollow()
  {
    ghost var c := a.clock;
    var ok;
    ok, project, rows := SnapshotAndClean(a, author, at);
    if !ok { return StepFailed, project, rows; }
    ghost var c1, w1 := a.clock, a.applied;
    r := DeleteRowsAndCommit(a, author, at, lockedDigest, project, rows);
    a.JoinWindows(c, c1, a.clock);
    PrefixNotWritten(w1, a.applied, RowKey(Projects, a.id));
  }

  /** From the locked tasks on: the caller's digest is checked first. */
  method DeleteLocked(a: DeleteProjectAdapter, author: string, at: int, expected: D.Digest, locked: seq<Uuid>)
    returns (r: Outcome, ghost project: Option<Row>, ghost rows: map<Uuid, Row>)
    requires a.LockHeld() && locked == a.locked && Distinct(locked)
    requires Cleaned(a, []) && forall k :: a.Own(k) ==> k !in a.view
    modifies a`clock, a`committed, a`view, a`applied, a`locks, a`open
    ensures old(a.applied) <= a.applied
    ensures !r.NotFound? && (r.StepFailed? <==> !a.NoFailure(old(a.clock), a.clock))
    ensures !r.Deleted? ==> a.Shared()
    ensures r.Deleted? ==> r.taskCount == |a.locked| && Committed(a, a.base, author, at, project, rows)
    ensures r.Deleted? ==> forall t :: t in a.locked ==> Some(rows[t]) == old(Get(a.view, RowKey(Tasks, t)))
    ensures r.Deleted? && NotWritten(a.applied, RowKey(Projects, a.id)) && ProjectVisible(a.base, a.id, a.ws) ==>
              project == Get(a.base, RowKey(Projects, a.id))
    ensures !r.StepFailed? ==>
              (r.Deleted? <==> && (expected == D.NoCheck || expected == D.DigestOf(locked))
                               && TasksOf(a.World(old(a.clock) + SNAPSHOT_TO_DELETE), a.id, a.ws) <= SetOf(locked))
    ensures old(a.clock) <= a.clock <= old(a.clock) + SNAPSHOT_TO_DELETE + 3
    ensures r.Deleted? ==> a.clock == old(a.clock) + SNAPSHOT_TO_DELETE + 3
    ensures r.TasksChanged? ==> a.clock <= old(a.clock) + SNAPSHOT_TO_DELETE
    ensures a.Quiet(old(a.clock), a.clock) ==> a.applied == old(a.applied)
    ensures r.Deleted? && old(a.Follows()) && old(a.clock) == CHECK_CALL + LockCalls(a.dialect) ==> a.RefsFollow()
  {
    var lockedDigest := D.TaskSetDigest(locked);
    if expected != D.NoCheck && lockedDigest != expected {
      a.QuietStep(a.clock, a.clock);
      return TasksChanged, None, map[];
    }
    r, project, rows := SnapshotCleanDelete(a, author, at, lockedDigest);
  }

  datatype Opening = CallFailed | ProjectMissing | TasksLocked

  /** Begins the transaction and looks the project up. */
  method OpenAndCheck(a: DeleteProjectAdapter) returns (ok: bool, exists_: bool)
    requires a.Idle()
    modifies a`clock, a`committed, a`view, a`applied, a`open, a`locks
    ensures a.Shared() && ok == a.NoFailure(0, a.clock)
    ensures 0 < a.clock <= CHECK_CALL && (ok ==> a.clock == CHECK_CALL)
    ensures ok ==> a.InTx() && a.TasksAgree({}) && a.locks == {}
    ensures ok ==> exists_ == ProjectVisible(a.World(a.clock), a.id, a.ws)
    ensures ok ==> forall k :: NotWritten(a.applied, k) || a.Own(k) ==> Get(a.view, k) == Get(a.base, k)
    ensures a.Quiet(0, a.clock) ==> a.applied == []
  {
    exists_ := false;
    a.QuietStep(0, 0);
    ok := a.BeginTx();
    if !ok { return; }
    a.QuietStep(0, 1);
    ghost var w, v := a.applied, a.view;
    forall k ensures NotWritten(w, k) ==> Get(v, k) == Get(a.base, k) {
      if NotWritten(w, k) { ReplayNotWritten(a.base, w, k); }
    }
    ok, exists_ := a.WorkspacePrecheck();
    forall k ensures NotWritten(a.applied, k) ==> NotWritten(w, k) { PrefixNotWritten(w, a.applied, k); }
  }

  /** Begins the transaction, looks the project up and locks its tasks. */
  method OpenAndLock(a: DeleteProjectAdapter) returns (r: Opening, locked: seq<Uuid>)
    requires a.Idle()
    modifies a
    ensures a.Shared() && (r.CallFailed? <==> !a.NoFailure(0, a.clock))
    ensures !r.CallFailed? ==> (r.ProjectMissing? <==> !ProjectVisible(a.World(CHECK_CALL), a.id, a.ws))
    ensures r.TasksLocked? ==> a.LockHeld() && locked == a.locked && Distinct(locked) && Cleaned(a, [])
    ensures r.TasksLocked? ==> forall k :: a.Own(k) ==> k !in a.view
    ensures r.TasksLocked? && NotWritten(a.applied, RowKey(Projects, a.id)) ==> ProjectVisible(a.base, a.id, a.ws)
    ensures r.TasksLocked? ==> SetOf(locked) == TasksOf(a.World(LOCK_CALL), a.id, a.ws)
    ensures r.TasksLocked? ==>
              forall t :: t in locked ==> Get(a.view, RowKey(Tasks, t)) == Get(a.World(LOCK_CALL), RowKey(Tasks, t))
    ensures a.clock <= CHECK_CALL + LockCalls(a.dialect)
    ensures r.TasksLocked? ==> a.clock == CHECK_CALL + LockCalls(a.dialect)
    ensures a.Quiet(0, a.clock) ==> a.applied == []
    ensures r.TasksLocked? ==> a.Follows()
  {
    locked := [];
    var ok, exists_ := OpenAndCheck(a);
    if !ok { return CallFailed, []; }
    if !exists_ { return ProjectMissing, []; }
    ghost var w, pk := a.applied, RowKey(Projects, a.id);
    assert Get(a.view, pk) == Get(a.World(a.clock), pk);
    assert NotWritten(w, pk) ==> Get(a.base, pk) == Get(a.World(a.clock), pk);
    ghost var c := a.clock;
    ok, locked := a.LockTaskRows();
    a.JoinWindows(0, c, a.clock);
    r := if ok then TasksLocked else CallFailed;
    forall k ensures NotWritten(a.applied, k) ==> NotWritten(w, k) { PrefixNotWritten(w, a.applied, k); }
  }

  /** The transaction, up to the deferred rollback. */
  method LockAndDelete(a: DeleteProjectAdapter, author: string, at: int, expected: D.Digest)
    returns (r: Outcome, ghost project: Option<Row>, ghost rows: map<Uuid, Row>)
    requires a.Idle()
    modifies a
    ensures !r.Deleted? ==> a.Shared()
    ensures r.StepFailed? <==> !a.NoFailure(0, a.clock)
    ensures !r.StepFailed? ==> (r.NotFound? <==> !ProjectVisible(a.World(CHECK_CALL), a.id, a.ws))
    ensures r.TasksChanged? || r.Deleted? ==>
              Distinct(a.locked) && SetOf(a.locked) == TasksOf(a.World(LOCK_CALL), a.id, a.ws)
    ensures r.TasksChanged? || r.Deleted? ==>
              (r.Deleted? <==> && (expected == D.NoCheck || expected == D.DigestOf(a.locked))
                               && TasksOf(a.World(DeleteCall(a.dialect)), a.id, a.ws) <= SetOf(a.locked))
    ensures a.clock <= DeleteCall(a.dialect) + 3 && (r.Deleted? ==> a.clock == DeleteCall(a.dialect) + 3)
    ensures r.Deleted? ==> r.taskCount == |a.locked| && Committed(a, a.base, author, at, project, rows)
    ensures r.Deleted? ==> forall t :: t in a.locked ==> Some(rows[t]) == Get(a.World(LOCK_CALL), RowKey(Tasks, t))
    ensures r.Deleted? && NotWritten(a.applied, RowKey(Projects, a.id)) ==>
              project == Get(a.base, RowKey(Projects, a.id))
    ensures a.Quiet(0, a.clock) ==> a.applied == []
    ensures r.Deleted? ==> a.RefsFollow()
  {
    var opening, locked := OpenAndLock(a);
    if opening != TasksLocked {
      r, project, rows := if opening == ProjectMissing then NotFound else StepFailed, None, map[];
      return;
    }
    ghost var c, w := a.clock, a.applied;
    r, project, rows := DeleteLocked(a, author, at, expected, locked);
    a.JoinWindows(0, c, a.clock);
    PrefixNotWritten(w, a.applied, RowKey(Projects, a.id));
  }

  /** The tombstones of other deletions, for every committed delete. */
  ghost predicate TombstonesRetained(a: DeleteProjectAdapter, at: int)
    reads a`committed, a`applied
  {
    forall k: Key :: k.TombstoneKey? && k.deletion != a.deletionID && NotWritten(a.applied, k) ==>
      Retained(k, Get(a.base, k), Get(a.committed, k), at)
  }

  lemma CommitRetains(a: DeleteProjectAdapter, author: string, at: int, project: Option<Row>, rows: map<Uuid, Row>)
    requires Committed(a, a.base, author, at, project, rows)
    ensures TombstonesRetained(a, at)
  {
    forall k: Key | k.TombstoneKey? && k.deletion != a.deletionID && NotWritten(a.applied, k)
      ensures Retained(k, Get(a.base, k), Get(a.committed, k), at)
    {
      PruneRetains(SetOf(a.locked), a.id, a.ws, a.now, at, k, Get(a.base, k));
    }
  }

  /** The project's row, by its columns. */
  lemma VisibleByColumns(db: Db, p: Uuid, ws: Option<Uuid>)
    ensures var k := RowKey(Projects, p);
            ProjectVisible(db, p, ws) <==> k in db && db[k].Row? && (ws.Some? ==> db[k].ws == ws)
  {
  }

  /** The project's tasks, by their columns. */
  lemma TasksByColumns(db: Db, p: Uuid, ws: Option<Uuid>)
    ensures forall t :: t in TasksOf(db, p, ws) <==>
              var k := RowKey(Tasks, t);
              k in db && db[k].Row? && db[k].project == Some(p) && (ws.Some? ==> db[k].ws == ws)
  {
    TasksOfMembers(db, p, ws);
  }

  /** The whole delete, for every schedule of other writers and failures, against
      the store the others alone would have made. It fails exactly when a call it
      made fails. Otherwise it finds nothing exactly when the project is not
      visible at the second call; it locks the project's tasks of the third call;
      and it commits exactly when the caller's digest names those tasks and no
      other task is the project's at the call that deletes the task rows. A
      committed delete ends three calls later; any other outcome leaves the store
      exactly as the other writers made it. */
  method DeleteProjectOrchestration(a: DeleteProjectAdapter, author: string, at: int, expected: D.Digest)
    returns (r: Outcome, ghost project: Option<Row>, ghost rows: map<Uuid, Row>)
    requires a.Idle()
    modifies a
    ensures !a.open && (!r.Deleted? ==> a.Shared())
    ensures r.StepFailed? <==> !a.NoFailure(0, a.clock)
    ensures !r.StepFailed? ==> (r.NotFound? <==> !ProjectVisible(a.World(CHECK_CALL), a.id, a.ws))
    ensures r.TasksChanged? || r.Deleted? ==>
              Distinct(a.locked) && SetOf(a.locked) == TasksOf(a.World(LOCK_CALL), a.id, a.ws)
    ensures r.TasksChanged? || r.Deleted? ==>
              (r.Deleted? <==> && (expected == D.NoCheck || expected == D.DigestOf(a.locked))
                               && TasksOf(a.World(DeleteCall(a.dialect)), a.id, a.ws) <= SetOf(a.locked))
    ensures a.clock <= DeleteCall(a.dialect) + 3 && (r.Deleted? ==> a.clock == DeleteCall(a.dialect) + 3)
    ensures r.Deleted? ==> r.taskCount == |a.locked| && Committed(a, a.base, author, at, project, rows)
    ensures r.Deleted? ==> forall t :: t in a.locked ==> Some(rows[t]) == Get(a.World(LOCK_CALL), RowKey(Tasks, t))
    ensures r.Deleted? && NotWritten(a.applied, RowKey(Projects, a.id)) ==>
              project == Get(a.base, RowKey(Projects, a.id))
    ensures a.Quiet(0, a.clock) ==> a.applied == []
    ensures r.Deleted? ==> a.RefsFollow() && TombstonesRetained(a, at)
    ensures !r.StepFailed? ==>
              var w, k := a.World(CHECK_CALL), RowKey(Projects, a.id);
              !r.NotFound? <==> k in w && w[k].Row? && (a.ws.Some? ==> w[k].ws == a.ws)
    ensures r.TasksChanged? || r.Deleted? ==>
              forall t :: t in a.locked <==>
                var w, k := a.World(LOCK_CALL), RowKey(Tasks, t);
                k in w && w[k].Row? && w[k].project == Some(a.id) && (a.ws.Some? ==> w[k].ws == a.ws)
  {
    r, project, rows := LockAndDelete(a, author, at, expected);
    a.Rollback();
    VisibleByColumns(a.World(CHECK_CALL), a.id, a.ws);
    TasksByColumns(a.World(LOCK_CALL), a.id, a.ws);
    if r.Deleted? { CommitRetains(a, author, at, project, rows); }
  }
}

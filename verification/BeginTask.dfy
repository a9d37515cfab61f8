/** Any number of BeginTask calls, interleaved with every other task writer:
    one atomic statement a step. */
module BeginTask {
  import opened Ids
  import opened Whitespace

  const IN_PROGRESS := "in_progress"

  datatype TaskRow = TaskRow(ws: Option<Uuid>, status: string, assignee: Option<string>, title: string)

  /** Trimming leaves nothing; an absent assignee counts as empty text. */
  predicate Blank(assignee: Option<string>) {
    assignee.Some? ==> forall c :: c in assignee.value ==> IsSpace(c)
  }

  /** One committed change of a row to in_progress by a BeginTask call. */
  datatype Flip = Flip(task: Uuid, caller: nat, row: TaskRow)

  /** A committed work_session_started row. The note carries the title. */
  datatype LogRow = LogRow(task: Uuid, caller: nat, title: string)

  /** How far a call has come. `title` is the one ReadExisting saw. */
  datatype Phase =
    | Idle
    | Checked(task: Uuid, title: string)
    | TxOpen(task: Uuid, title: string)
    | Blocked(task: Uuid)
    | Flipped(task: Uuid, title: string, row: TaskRow)
    | Logged(task: Uuid, note: string, row: TaskRow)
    | Done

  datatype World = World(
    dialect: Dialect, store: Option<Uuid>,
    tasks: map<Uuid, TaskRow>, locks: map<Uuid, nat>, conn: Option<nat>,
    callers: map<nat, Phase>, log: seq<LogRow>, flips: seq<Flip>)

  datatype Event =
    | Read(caller: nat, task: Uuid)
    | Begin(caller: nat)
    | Guard(caller: nat)
    | Resolve(caller: nat)
    | Log(caller: nat)
    | Commit(caller: nat)
    | Abort(caller: nat)
    | EditAssignee(task: Uuid, assignee: Option<string>)
    | EditTitle(task: Uuid, title: string)
    | SetStatus(task: Uuid, status: string, expected: Option<string>)
    | Insert(task: Uuid, row: TaskRow)
    | Remove(task: Uuid)

  function PhaseOf(w: World, c: nat): Phase {
    if c in w.callers then w.callers[c] else Idle
  }

  predicate Visible(w: World, row: TaskRow) {
    w.store == None || row.ws == w.store
  }

  /** The WHERE clause of the guarded update. Postgres compares with the store's
      workspace bytes even when the store has no workspace. */
  predicate GuardHolds(w: World, row: TaskRow) {
    && row.status != IN_PROGRESS
    && !Blank(row.assignee)
    && match w.dialect
       case Postgres => row.ws == Some(if w.store.Some? then w.store.value else NIL_UUID)
       case Sqlite => Visible(w, row)
  }

  ghost predicate Assigned(row: TaskRow) {
    row.assignee.Some? && HasText(row.assignee.value)
  }

  /** A row a start may come from, by its columns. */
  ghost predicate MayStart(dialect: Dialect, store: Option<Uuid>, row: TaskRow) {
    && row.status != "in_progress" && Assigned(row)
    && (store.Some? ==> row.ws == store)
    && (dialect == Postgres && store == None ==> row.ws == Some("00000000-0000-0000-0000-000000000000"))
  }

  lemma BlankIff(row: TaskRow)
    ensures Assigned(row) <==> !Blank(row.assignee)
  {
    if row.assignee.Some? { HasTextIff(row.assignee.value); }
  }

  lemma GuardIff(w: World, row: TaskRow)
    ensures GuardHolds(w, row) <==> MayStart(w.dialect, w.store, row)
  {
    BlankIff(row);
  }

  predicate InTx(ph: Phase) {
    ph.TxOpen? || ph.Blocked? || ph.Flipped? || ph.Logged?
  }

  function MoveTo(w: World, c: nat, ph: Phase): World {
    w.(callers := w.callers[c := ph])
  }

  /** Ends the caller's transaction: its row lock and connection are free. */
  function Close(w: World, c: nat): World {
    w.(callers := w.callers[c := Done],
       locks := map t | t in w.locks && w.locks[t] != c :: w.locks[t],
       conn := if w.conn == Some(c) then None else w.conn)
  }

  /** A call that has to wait, for the row or on SQLite for the one connection. */
  predicate ConnFree(w: World, c: Option<nat>) {
    w.dialect == Postgres || w.conn == None || (c.Some? && w.conn == c)
  }

  predicate Writable(w: World, t: Uuid) {
    t in w.tasks && t !in w.locks && ConnFree(w, None)
  }

  /** The next state. A step that is not enabled leaves the world as it is. */
  function Step(w: World, e: Event): World {
    match e
    case Read(c, t) =>
      if PhaseOf(w, c).Idle? && ConnFree(w, Some(c)) then
        if t in w.tasks && Visible(w, w.tasks[t]) && w.tasks[t].status != IN_PROGRESS && !Blank(w.tasks[t].assignee)
        then MoveTo(w, c, Checked(t, w.tasks[t].title))
        else MoveTo(w, c, Done)
      else w
    case Begin(c) =>
      var ph := PhaseOf(w, c);
      if ph.Checked? && ConnFree(w, Some(c))
      then MoveTo(w, c, TxOpen(ph.task, ph.title)).(conn := if w.dialect == Sqlite then Some(c) else w.conn)
      else w
    case Guard(c) =>
      var ph := PhaseOf(w, c);
      if ph.TxOpen? && ph.task !in w.locks then
        if ph.task in w.tasks && GuardHolds(w, w.tasks[ph.task])
        then MoveTo(w, c, Flipped(ph.task, ph.title, w.tasks[ph.task])).(locks := w.locks[ph.task := c])
        else MoveTo(w, c, Blocked(ph.task))
      else w
    case Resolve(c) =>
      if PhaseOf(w, c).Blocked? then Close(w, c) else w
    case Log(c) =>
      var ph := PhaseOf(w, c);
      if ph.Flipped?
      then MoveTo(w, c, Logged(ph.task, if w.dialect == Postgres then ph.row.title else ph.title, ph.row))
      else w
    case Commit(c) =>
      var ph := PhaseOf(w, c);
      if ph.Logged? && ph.task in w.tasks
      then Close(w, c).(tasks := w.tasks[ph.task := w.tasks[ph.task].(status := IN_PROGRESS)],
                        log := w.log + [LogRow(ph.task, c, ph.note)],
                        flips := w.flips + [Flip(ph.task, c, ph.row)])
      else w
    case Abort(c) => Close(w, c)
    case EditAssignee(t, a) =>
      if Writable(w, t) then w.(tasks := w.tasks[t := w.tasks[t].(assignee := a)]) else w
    case EditTitle(t, s) =>
      if Writable(w, t) then w.(tasks := w.tasks[t := w.tasks[t].(title := s)]) else w
    case SetStatus(t, s, expected) =>
      if Writable(w, t) && (expected == None || expected.value == w.tasks[t].status)
         && (s == IN_PROGRESS ==> !Blank(w.tasks[t].assignee))
      then w.(tasks := w.tasks[t := w.tasks[t].(status := s)]) else w
    case Insert(t, row) =>
      if t !in w.tasks && ConnFree(w, None) then w.(tasks := w.tasks[t := row]) else w
    case Remove(t) =>
      if Writable(w, t) then w.(tasks := w.tasks - {t}) else w
  }

  function Run(w: World, es: seq<Event>): World {
    if |es| == 0 then w else Step(Run(w, es[..|es| - 1]), es[|es| - 1])
  }

  /** Nobody has called yet. */
  predicate Fresh(w: World) {
    w.locks == map[] && w.conn == None && w.callers == map[] && w.log == [] && w.flips == []
  }

  // ----- the invariant -----

  /** A flip came from a row that was not in progress and had an assignee. */
  predicate GoodFlip(w: World, f: Flip) {
    GuardHolds(w, f.row)
  }

  /** Log row i records flip i, and each finished call appears once. */
  ghost predicate HistoryOk(w: World) {
    && |w.log| == |w.flips|
    && (forall i :: 0 <= i < |w.log| ==>
          && w.log[i].task == w.flips[i].task && w.log[i].caller == w.flips[i].caller
          && (w.dialect == Postgres ==> w.log[i].title == w.flips[i].row.title)
          && GoodFlip(w, w.flips[i])
          && PhaseOf(w, w.log[i].caller) == Done)
    && (forall i, j :: 0 <= i < j < |w.log| ==> w.log[i].caller != w.log[j].caller)
  }

  predicate Holding(ph: Phase) {
    ph.Flipped? || ph.Logged?
  }

  /** A call that flipped a row holds its lock, and the row has not moved. */
  ghost predicate CallerOk(w: World, c: nat) {
    var ph := PhaseOf(w, c);
    Holding(ph) ==>
      && ph.task in w.locks && w.locks[ph.task] == c
      && ph.task in w.tasks && w.tasks[ph.task] == ph.row && GuardHolds(w, ph.row)
      && (ph.Logged? && w.dialect == Postgres ==> ph.note == ph.row.title)
  }

  ghost predicate LockOk(w: World, t: Uuid)
    requires t in w.locks
  {
    var ph := PhaseOf(w, w.locks[t]);
    Holding(ph) && ph.task == t
  }

  ghost predicate LocksOk(w: World) {
    (forall c: nat :: CallerOk(w, c)) && (forall t :: t in w.locks ==> LockOk(w, t))
  }

  ghost predicate Inv(w: World) {
    HistoryOk(w) && LocksOk(w)
  }

  lemma CloseKeepsLocks(w: World, c: nat)
    requires LocksOk(w)
    ensures LocksOk(Close(w, c))
  {
    var w' := Close(w, c);
    forall d: nat ensures CallerOk(w', d) {
      assert CallerOk(w, d);
    }
    forall t | t in w'.locks ensures LockOk(w', t) {
      assert LockOk(w, t) && w.locks[t] != c;
    }
  }

  lemma CommitKeepsInv(w: World, c: nat)
    requires Inv(w)
    ensures Inv(Step(w, Commit(c)))
  {
    var ph := PhaseOf(w, c);
    if ph.Logged? && ph.task in w.tasks {
      assert CallerOk(w, c);
      CloseKeepsLocks(w, c);
      var w' := Step(w, Commit(c));
      forall d: nat ensures CallerOk(w', d) {
        assert CallerOk(w, d) && CallerOk(Close(w, c), d);
      }
      forall t | t in w'.locks ensures LockOk(w', t) {
        assert LockOk(Close(w, c), t);
      }
      forall i | 0 <= i < |w.log| ensures w.log[i].caller != c {
        assert PhaseOf(w, w.log[i].caller) == Done;
      }
    }
  }

  /** Finished calls stay finished: only the caller's own phase changes. */
  lemma OwnStepKeepsHistory(w: World, e: Event)
    requires Inv(w) && (e.Read? || e.Begin? || e.Guard? || e.Log?)
    ensures HistoryOk(Step(w, e))
  {
    var w' := Step(w, e);
    if w' != w {
      assert w'.log == w.log && w'.flips == w.flips && w'.dialect == w.dialect && w'.store == w.store;
      assert PhaseOf(w, e.caller) != Done;
      assert forall d :: d != e.caller ==> PhaseOf(w', d) == PhaseOf(w, d);
    }
  }

  lemma ReadKeepsLocks(w: World, c: nat, t: Uuid)
    requires Inv(w)
    ensures LocksOk(Step(w, Read(c, t)))
  {
    var w' := Step(w, Read(c, t));
    forall d: nat ensures CallerOk(w', d) { assert CallerOk(w, d); }
    forall u | u in w'.locks ensures LockOk(w', u) { assert LockOk(w, u); }
  }

  lemma BeginKeepsLocks(w: World, c: nat)
    requires Inv(w)
    ensures LocksOk(Step(w, Begin(c)))
  {
    var w' := Step(w, Begin(c));
    forall d: nat ensures CallerOk(w', d) { assert CallerOk(w, d); }
    forall u | u in w'.locks ensures LockOk(w', u) { assert LockOk(w, u); }
  }

  lemma GuardKeepsLocks(w: World, c: nat)
    requires Inv(w)
    ensures LocksOk(Step(w, Guard(c)))
  {
    var w' := Step(w, Guard(c));
    forall d: nat ensures CallerOk(w', d) { assert CallerOk(w, d); }
    forall u | u in w'.locks ensures LockOk(w', u) {
      if u in w.locks { assert LockOk(w, u); }
    }
  }

  lemma LogKeepsLocks(w: World, c: nat)
    requires Inv(w)
    ensures LocksOk(Step(w, Log(c)))
  {
    var w' := Step(w, Log(c));
    forall d: nat ensures CallerOk(w', d) { assert CallerOk(w, d); }
    forall u | u in w'.locks ensures LockOk(w', u) { assert LockOk(w, u); }
  }

  /** A call that moves to a new phase without ending. */
  lemma OwnStepKeepsInv(w: World, e: Event)
    requires Inv(w) && (e.Read? || e.Begin? || e.Guard? || e.Log?)
    ensures Inv(Step(w, e))
  {
    OwnStepKeepsHistory(w, e);
    match e
    case Read(c, t) => ReadKeepsLocks(w, c, t);
    case Begin(c) => BeginKeepsLocks(w, c);
    case Guard(c) => GuardKeepsLocks(w, c);
    case Log(c) => LogKeepsLocks(w, c);
  }

  lemma WriterKeepsHistory(w: World, e: Event)
    requires Inv(w) && (e.EditAssignee? || e.EditTitle? || e.SetStatus? || e.Insert? || e.Remove?)
    ensures HistoryOk(Step(w, e))
  {
    var w' := Step(w, e);
    assert w'.log == w.log && w'.flips == w.flips && w'.dialect == w.dialect && w'.store == w.store
      && w'.callers == w.callers;
  }

  lemma WriterKeepsLocks(w: World, e: Event)
    requires Inv(w) && (e.EditAssignee? || e.EditTitle? || e.SetStatus? || e.Insert? || e.Remove?)
    ensures LocksOk(Step(w, e))
  {
    var w' := Step(w, e);
    forall d: nat ensures CallerOk(w', d) { assert CallerOk(w, d); }
    forall t | t in w'.locks ensures LockOk(w', t) { assert LockOk(w, t); }
  }

  /** Other writers cannot touch a locked row. */
  lemma WriterKeepsInv(w: World, e: Event)
    requires Inv(w) && (e.EditAssignee? || e.EditTitle? || e.SetStatus? || e.Insert? || e.Remove?)
    ensures Inv(Step(w, e))
  {
    WriterKeepsHistory(w, e);
    WriterKeepsLocks(w, e);
  }

  lemma CloseKeepsHistory(w: World, c: nat)
    requires HistoryOk(w)
    ensures HistoryOk(Close(w, c))
  {
    var w' := Close(w, c);
    forall i | 0 <= i < |w.log| ensures PhaseOf(w', w.log[i].caller) == Done {
      assert PhaseOf(w, w.log[i].caller) == Done;
    }
  }

  lemma StepKeepsInv(w: World, e: Event)
    requires Inv(w)
    ensures Inv(Step(w, e))
  {
    match e
    case Read(_, _) => OwnStepKeepsInv(w, e);
    case Begin(_) => OwnStepKeepsInv(w, e);
    case Guard(_) => OwnStepKeepsInv(w, e);
    case Log(_) => OwnStepKeepsInv(w, e);
    case Commit(c) => CommitKeepsInv(w, c);
    case Resolve(c) => CloseKeepsLocks(w, c); CloseKeepsHistory(w, c);
    case Abort(c) => CloseKeepsLocks(w, c); CloseKeepsHistory(w, c);
    case EditAssignee(_, _) => WriterKeepsInv(w, e);
    case EditTitle(_, _) => WriterKeepsInv(w, e);
    case SetStatus(_, _, _) => WriterKeepsInv(w, e);
    case Insert(_, _) => WriterKeepsInv(w, e);
    case Remove(_) => WriterKeepsInv(w, e);
  }

  lemma {:induction false} RunKeepsInv(w: World, es: seq<Event>)
    requires Fresh(w)
    ensures Inv(Run(w, es))
    decreases |es|
  {
    if |es| > 0 {
      RunKeepsInv(w, es[..|es| - 1]);
      StepKeepsInv(Run(w, es[..|es| - 1]), es[|es| - 1]);
    }
  }

  /** Nothing the row or, on SQLite, the one connection makes a writer wait for. */
  ghost predicate Idles(w: World, t: Uuid) {
    t !in w.locks && (w.dialect == Sqlite ==> w.conn == None)
  }

  /** The other writers change exactly the row they name, and only while no call
      holds it; a status write may expect the old one and needs an assignee for
      in_progress. */
  lemma WriterEffect(w: World, e: Event)
    requires e.EditAssignee? || e.EditTitle? || e.SetStatus? || e.Insert? || e.Remove?
    ensures var w', t := Step(w, e), e.task;
            && w' == w.(tasks := w'.tasks)
            && (!Idles(w, t) && t in w.tasks ==> w' == w)
            && (Idles(w, t) && t !in w.tasks ==> w'.tasks == if e.Insert? then w.tasks[t := e.row] else w.tasks)
            && (Idles(w, t) && t in w.tasks ==>
                 var r := w.tasks[t];
                 && (e.EditAssignee? ==> w'.tasks == w.tasks[t := r.(assignee := e.assignee)])
                 && (e.EditTitle? ==> w'.tasks == w.tasks[t := r.(title := e.title)])
                 && (e.SetStatus? ==>
                      w'.tasks == if (e.expected.Some? ==> e.expected.value == r.status)
                                     && (e.status == "in_progress" ==> Assigned(r))
                                  then w.tasks[t := r.(status := e.status)] else w.tasks)
                 && (e.Insert? ==> w'.tasks == w.tasks)
                 && (e.Remove? ==> w'.tasks == w.tasks - {t}))
  {
    if e.task in w.tasks { BlankIff(w.tasks[e.task]); }
  }

  // ----- what holds of every run -----

  lemma CommitIsFlip(w: World, c: nat)
    requires Inv(w) && PhaseOf(w, c).Logged?
    ensures var ph := PhaseOf(w, c); var w' := Step(w, Commit(c));
            && ph.task in w.tasks && w.tasks[ph.task] == ph.row && MayStart(w.dialect, w.store, ph.row)
            && w'.tasks == w.tasks[ph.task := ph.row.(status := "in_progress")]
            && w'.flips == w.flips + [Flip(ph.task, c, ph.row)] && |w'.log| == |w.log| + 1
  {
    assert CallerOk(w, c);
    GuardIff(w, PhaseOf(w, c).row);
  }

  lemma LogOnlyGrowsByCommit(w: World, e: Event)
    ensures var w' := Step(w, e);
            w.log <= w'.log && w.flips <= w'.flips
            && (w'.log != w.log || w'.flips != w.flips ==> e.Commit? && PhaseOf(w, e.caller).Logged?)
            && w'.dialect == w.dialect && w'.store == w.store
  {
  }

  /** The moment of flip i: the row stood in the table as recorded, not in
      progress, of the store's workspace and with an assignee, and one step later
      it is in progress. */
  ghost predicate FlipAt(w: World, es: seq<Event>, i: nat, k: nat)
    requires i < |Run(w, es).flips| && k < |es|
  {
    var f := Run(w, es).flips[i];
    var before, after := Run(w, es[..k]), Run(w, es[..k + 1]);
    && f.task in before.tasks && before.tasks[f.task] == f.row
    && MayStart(w.dialect, w.store, f.row)
    && after.tasks == before.tasks[f.task := f.row.(status := "in_progress")]
    && |before.flips| == i && |after.flips| == i + 1
    && |before.log| == i && |after.log| == i + 1
  }

  /** Every committed work_session_started row belongs to exactly one committed
      flip, of the same task by the same call, and no call writes two. */
  lemma EveryStartIsOneFlip(w: World, es: seq<Event>)
    requires Fresh(w)
    ensures var r := Run(w, es);
            && |r.log| == |r.flips|
            && (forall i :: 0 <= i < |r.log| ==>
                 r.log[i].task == r.flips[i].task && r.log[i].caller == r.flips[i].caller)
            && (forall i, j :: 0 <= i < j < |r.log| ==> r.log[i].caller != r.log[j].caller)
  {
    RunKeepsInv(w, es);
  }

  lemma {:induction false} RunKeepsDialect(w: World, es: seq<Event>)
    ensures Run(w, es).dialect == w.dialect && Run(w, es).store == w.store
    decreases |es|
  {
    if |es| > 0 {
      RunKeepsDialect(w, es[..|es| - 1]);
      LogOnlyGrowsByCommit(Run(w, es[..|es| - 1]), es[|es| - 1]);
    }
  }

  /** Each recorded flip happened: log row and table change came in one step. */
  lemma {:induction false} FlipMoment(w: World, es: seq<Event>, i: nat) returns (k: nat)
    requires Fresh(w) && i < |Run(w, es).flips|
    ensures k < |es| && FlipAt(w, es, i, k)
    decreases |es|
  {
    var n := |es| - 1;
    var init := es[..n];
    RunKeepsInv(w, init);
    RunKeepsDialect(w, init);
    var v := Run(w, init);
    LogOnlyGrowsByCommit(v, es[n]);
    assert es[..n + 1] == es;
    if i < |v.flips| {
      k := FlipMoment(w, init, i);
      assert init[..k] == es[..k] && init[..k + 1] == es[..k + 1];
      assert Run(w, es).flips[i] == v.flips[i];
    } else {
      CommitIsFlip(v, es[n].caller);
      k := n;
    }
  }

  function Starts(log: seq<LogRow>, t: Uuid): nat {
    if |log| == 0 then 0
    else Starts(log[..|log| - 1], t) + (if log[|log| - 1].task == t then 1 else 0)
  }

  /** The places in the log that name the task. */
  ghost function PlacesOf(log: seq<LogRow>, t: Uuid): set<nat> {
    set i: nat | i < |log| && log[i].task == t
  }

  lemma PlacesOfLast(log: seq<LogRow>, t: Uuid, n: nat, init: seq<LogRow>)
    requires |log| == n + 1 && init == log[..n]
    ensures n !in PlacesOf(init, t)
    ensures log[n].task == t ==> PlacesOf(log, t) == PlacesOf(init, t) + {n}
    ensures log[n].task != t ==> PlacesOf(log, t) == PlacesOf(init, t)
  {
  }

  /** `Starts` counts them. */
  lemma {:induction false} StartsAreCounted(log: seq<LogRow>, t: Uuid)
    ensures Starts(log, t) == |PlacesOf(log, t)|
    decreases |log|
  {
    if |log| == 0 {
      assert PlacesOf(log, t) == {};
    } else {
      var n := |log| - 1;
      StartsAreCounted(log[..n], t);
      PlacesOfLast(log, t, n, log[..n]);
    }
  }

  lemma {:induction false} TwoStarts(log: seq<LogRow>, t: Uuid, i: nat, j: nat)
    requires i < j < |log| && log[i].task == t && log[j].task == t
    ensures Starts(log, t) > 1
  {
    StartsAreCounted(log, t);
    var all := PlacesOf(log, t);
    assert i in all && j in all - {i} && |all - {i}| == |all| - 1;
  }

  predicate InProgress(w: World, t: Uuid) {
    t in w.tasks && w.tasks[t].status == IN_PROGRESS
  }

  /** How often the task left in_progress, or was removed while in it. */
  function Leaves(w: World, es: seq<Event>, t: Uuid): nat {
    if |es| == 0 then 0
    else
      var init := es[..|es| - 1];
      Leaves(w, init, t) + (if InProgress(Run(w, init), t) && !InProgress(Run(w, es), t) then 1 else 0)
  }

  function One(b: bool): nat {
    if b then 1 else 0
  }

  /** A step that starts the task finds it outside in_progress and leaves it there. */
  lemma StartStep(v: World, e: Event, t: Uuid)
    requires Inv(v)
    ensures var r := Step(v, e);
            Starts(r.log, t) + One(InProgress(v, t)) <=
            Starts(v.log, t) + One(InProgress(r, t)) + One(InProgress(v, t) && !InProgress(r, t))
  {
    LogOnlyGrowsByCommit(v, e);
    var r := Step(v, e);
    if r.log != v.log {
      CommitIsFlip(v, e.caller);
      assert r.log[..|r.log| - 1] == v.log;
    }
  }

  /** A task is started at most once more than it has left in_progress. */
  lemma {:induction false} StartsAreBoundedByLeaves(w: World, es: seq<Event>, t: Uuid)
    requires Fresh(w)
    ensures Starts(Run(w, es).log, t) <= Leaves(w, es, t) + One(InProgress(Run(w, es), t))
    decreases |es|
  {
    if |es| > 0 {
      var n := |es| - 1;
      StartsAreBoundedByLeaves(w, es[..n], t);
      RunKeepsInv(w, es[..n]);
      StartStep(Run(w, es[..n]), es[n], t);
    }
  }

  predicate WritesStatus(e: Event) {
    e.SetStatus? || e.Insert? || e.Remove?
  }

  lemma StaysInProgress(v: World, e: Event, t: Uuid)
    requires !WritesStatus(e) && InProgress(v, t)
    ensures InProgress(Step(v, e), t)
  {
  }

  lemma {:induction false} NeverLeaves(w: World, es: seq<Event>, t: Uuid)
    requires forall e :: e in es ==> !WritesStatus(e)
    ensures Leaves(w, es, t) == 0
    decreases |es|
  {
    if |es| > 0 {
      assert es[|es| - 1] in es;
      var v := Run(w, es[..|es| - 1]);
      NeverLeaves(w, es[..|es| - 1], t);
      if InProgress(v, t) { StaysInProgress(v, es[|es| - 1], t); }
    }
  }

  /** With no other status writer a task is started at most once. */
  lemma AtMostOneStart(w: World, es: seq<Event>, t: Uuid)
    requires Fresh(w) && forall e :: e in es ==> !WritesStatus(e)
    ensures Starts(Run(w, es).log, t) <= 1
    ensures var log := Run(w, es).log;
            forall i, j :: 0 <= i < j < |log| ==> log[i].task != t || log[j].task != t
  {
    StartsAreBoundedByLeaves(w, es, t);
    NeverLeaves(w, es, t);
    var log := Run(w, es).log;
    forall i, j | 0 <= i < j < |log| ensures log[i].task != t || log[j].task != t {
      if log[i].task == t && log[j].task == t { TwoStarts(log, t, i, j); }
    }
  }

  /** On Postgres the audit note carries the title the row had when it flipped. */
  lemma PostgresLogsFreshTitle(w: World, es: seq<Event>, i: nat)
    requires Fresh(w) && w.dialect == Postgres
    requires i < |Run(w, es).log|
    ensures i < |Run(w, es).flips| && Run(w, es).log[i].title == Run(w, es).flips[i].row.title
  {
    RunKeepsInv(w, es);
    RunKeepsDialect(w, es);
  }

  /** Call `c` read task `t` at step `k` and saw this title. */
  ghost predicate ReadAt(w: World, es: seq<Event>, c: nat, t: Uuid, title: string, k: nat)
    requires k < |es|
  {
    var before := Run(w, es[..k]);
    && es[k] == Read(c, t) && PhaseOf(before, c) == Idle
    && t in before.tasks && before.tasks[t].title == title
    && PhaseOf(Run(w, es[..k + 1]), c) == Checked(t, title)
  }

  predicate Carries(ph: Phase) {
    ph.Checked? || ph.TxOpen? || ph.Flipped? || ph.Logged?
  }

  /** The title a call on SQLite carries along from its read. */
  function Carried(ph: Phase): string
    requires Carries(ph)
  {
    if ph.Logged? then ph.note else ph.title
  }

  /** One step of a SQLite machine: a call carries what it carried, or reads. */
  lemma CarryStep(v: World, e: Event, c: nat)
    requires v.dialect == Sqlite && Carries(PhaseOf(Step(v, e), c))
    ensures var ph, ph' := PhaseOf(v, c), PhaseOf(Step(v, e), c);
            || (Carries(ph) && ph'.task == ph.task && Carried(ph') == Carried(ph))
            || (e == Read(c, ph'.task) && ph == Idle && ph' == Checked(ph'.task, Carried(ph'))
                && ph'.task in v.tasks && v.tasks[ph'.task].title == Carried(ph'))
  {
  }

  /** On SQLite every title a call carries was read by it earlier in the run. */
  lemma {:induction false} CarriedWasRead(w: World, es: seq<Event>, c: nat) returns (k: nat)
    requires Fresh(w) && w.dialect == Sqlite && Carries(PhaseOf(Run(w, es), c))
    ensures k < |es|
    ensures ReadAt(w, es, c, PhaseOf(Run(w, es), c).task, Carried(PhaseOf(Run(w, es), c)), k)
    decreases |es|
  {
    var n := |es| - 1;
    var init := es[..n];
    RunKeepsDialect(w, init);
    var v := Run(w, init);
    CarryStep(v, es[n], c);
    assert es[..n + 1] == es;
    if Carries(PhaseOf(v, c)) && PhaseOf(v, c).task == PhaseOf(Run(w, es), c).task
       && Carried(PhaseOf(v, c)) == Carried(PhaseOf(Run(w, es), c)) {
      k := CarriedWasRead(w, init, c);
      assert init[..k] == es[..k] && init[..k + 1] == es[..k + 1];
    } else {
      k := n;
    }
  }

  lemma {:induction false} RunConcat(w: World, a: seq<Event>, b: seq<Event>)
    ensures Run(w, a + b) == Run(Run(w, a), b)
    decreases |b|
  {
    if |b| == 0 {
      assert a + b == a;
    } else {
      assert (a + b)[..|a + b| - 1] == a + b[..|b| - 1];
      RunConcat(w, a, b[..|b| - 1]);
    }
  }

  lemma {:induction false} HistoryGrows(w: World, es: seq<Event>)
    ensures w.log <= Run(w, es).log && w.flips <= Run(w, es).flips
    decreases |es|
  {
    if |es| > 0 {
      HistoryGrows(w, es[..|es| - 1]);
      LogOnlyGrowsByCommit(Run(w, es[..|es| - 1]), es[|es| - 1]);
    }
  }

  lemma {:induction false} LogPrefix(w: World, es: seq<Event>, m: nat)
    requires m <= |es|
    ensures Run(w, es[..m]).log <= Run(w, es).log && Run(w, es[..m]).flips <= Run(w, es).flips
  {
    assert es == es[..m] + es[m..];
    RunConcat(w, es[..m], es[m..]);
    HistoryGrows(Run(w, es[..m]), es[m..]);
  }

  /** Start i was committed at step `m` by the call its log row names, which
      carried the note. */
  lemma {:induction false} StartWasCommitted(w: World, es: seq<Event>, i: nat, m: nat)
    requires Fresh(w) && w.dialect == Sqlite && i < |Run(w, es).flips| && m < |es| && FlipAt(w, es, i, m)
    ensures i < |Run(w, es).log|
    ensures var row, ph := Run(w, es).log[i], PhaseOf(Run(w, es[..m]), Run(w, es).log[i].caller);
            ph.Logged? && ph.task == row.task && ph.note == row.title
  {
    var before, after := Run(w, es[..m]), Run(w, es[..m + 1]);
    assert es[..m + 1][..m] == es[..m] && es[..m + 1][m] == es[m];
    assert after == Step(before, es[m]);
    LogOnlyGrowsByCommit(before, es[m]);
    LogPrefix(w, es, m + 1);
  }

  /** On SQLite the note of start i carries the title its call read at step `k`,
      before the row flipped at step `m`: it is the flipped row's title exactly
      when the title at the read is the title at the flip. */
  lemma {:induction false} SqliteTitleIsFreshIff(w: World, es: seq<Event>, i: nat) returns (k: nat, m: nat)
    requires Fresh(w) && w.dialect == Sqlite && i < |Run(w, es).log|
    ensures i < |Run(w, es).flips| && k < m < |es| && FlipAt(w, es, i, m)
    ensures var r := Run(w, es); ReadAt(w, es, r.log[i].caller, r.log[i].task, r.log[i].title, k)
    ensures var r := Run(w, es); var t := r.log[i].task;
            && t in Run(w, es[..k]).tasks && t in Run(w, es[..m]).tasks
            && (r.log[i].title == r.flips[i].row.title
                <==> Run(w, es[..k]).tasks[t].title == Run(w, es[..m]).tasks[t].title)
  {
    RunKeepsInv(w, es);
    m := FlipMoment(w, es, i);
    StartWasCommitted(w, es, i, m);
    k := CarriedWasRead(w, es[..m], Run(w, es).log[i].caller);
    assert es[..m][..k] == es[..k] && es[..m][..k + 1] == es[..k + 1];
  }

  lemma RunSnoc(w: World, es: seq<Event>, e: Event)
    ensures Run(w, es + [e]) == Step(Run(w, es), e)
  {
    assert (es + [e])[..|es|] == es;
  }

  lemma RunSix(w: World, a: Event, b: Event, c: Event, d: Event, e: Event, f: Event)
    ensures Run(w, [a, b, c, d, e, f]) == Step(Step(Step(Step(Step(Step(w, a), b), c), d), e), f)
  {
    RunSnoc(w, [], a);
    RunSnoc(w, [a], b);
    RunSnoc(w, [a, b], c);
    RunSnoc(w, [a, b, c], d);
    RunSnoc(w, [a, b, c, d], e);
    RunSnoc(w, [a, b, c, d, e], f);
    assert [] + [a] == [a] && [a] + [b] == [a, b] && [a, b] + [c] == [a, b, c];
    assert [a, b, c] + [d] == [a, b, c, d] && [a, b, c, d] + [e] == [a, b, c, d, e];
    assert [a, b, c, d, e] + [f] == [a, b, c, d, e, f];
  }

  lemma StaleRead(w: World, t: Uuid, row: TaskRow, newTitle: string)
    requires Fresh(w) && w.dialect == Sqlite && w.store == None && w.tasks == map[t := row]
    requires row.status != IN_PROGRESS && !Blank(row.assignee)
    ensures var w3 := Step(Step(Step(w, Read(0, t)), EditTitle(t, newTitle)), Begin(0));
            && PhaseOf(w3, 0) == TxOpen(t, row.title) && w3.tasks == map[t := row.(title := newTitle)]
            && w3.locks == map[] && w3.log == [] && w3.flips == [] && w3.dialect == Sqlite && w3.store == None
  {
    var w1 := Step(w, Read(0, t));
    assert w1 == w.(callers := map[0 := Checked(t, row.title)]);
    var w2 := Step(w1, EditTitle(t, newTitle));
    assert w2 == w1.(tasks := map[t := row.(title := newTitle)]);
    assert PhaseOf(w2, 0) == Checked(t, row.title);
  }

  lemma StaleCommit(w: World, t: Uuid, read: string, row: TaskRow)
    requires w.dialect == Sqlite && w.store == None && PhaseOf(w, 0) == TxOpen(t, read)
    requires w.tasks == map[t := row] && w.locks == map[] && w.log == [] && w.flips == []
    requires row.status != IN_PROGRESS && !Blank(row.assignee)
    ensures var w6 := Step(Step(Step(w, Guard(0)), Log(0)), Commit(0));
            w6.log == [LogRow(t, 0, read)] && w6.flips == [Flip(t, 0, row)]
  {
    var w4 := Step(w, Guard(0));
    assert PhaseOf(w4, 0) == Flipped(t, read, row) && w4.tasks == w.tasks && w4.log == [] && w4.flips == []
      && w4.dialect == Sqlite;
    var w5 := Step(w4, Log(0));
    assert PhaseOf(w5, 0) == Logged(t, read, row) && w5.tasks == w.tasks && w5.log == [] && w5.flips == [];
  }

  /** On SQLite it may not: the title read before the transaction is logged, and
      a title edit in between makes it stale. */
  lemma SqliteMayLogStaleTitle(t: Uuid, row: TaskRow, newTitle: string) returns (w: World, es: seq<Event>)
    requires MayStart(Sqlite, None, row) && newTitle != row.title
    ensures Fresh(w) && w.dialect == Sqlite && w.tasks == map[t := row]
    ensures |Run(w, es).log| == 1 && |Run(w, es).flips| == 1
    ensures Run(w, es).log[0].title == row.title && Run(w, es).flips[0].row.title == newTitle
  {
    w := World(Sqlite, None, map[t := row], map[], None, map[], [], []);
    es := [Read(0, t), EditTitle(t, newTitle), Begin(0), Guard(0), Log(0), Commit(0)];
    RunSix(w, Read(0, t), EditTitle(t, newTitle), Begin(0), Guard(0), Log(0), Commit(0));
    var row' := row.(title := newTitle);
    BlankIff(row);
    var w3 := Step(Step(Step(w, Read(0, t)), EditTitle(t, newTitle)), Begin(0));
    StaleRead(w, t, row, newTitle);
    StaleCommit(w3, t, row.title, row');
  }

  predicate NoNilWorkspace(tasks: map<Uuid, TaskRow>) {
    forall t :: t in tasks ==> tasks[t].ws != Some(NIL_UUID)
  }

  ghost predicate NobodyHolds(w: World) {
    forall c: nat :: !Holding(PhaseOf(w, c))
  }

  lemma UnscopedStep(v: World, e: Event)
    requires v.dialect == Postgres && v.store == None && NoNilWorkspace(v.tasks) && NobodyHolds(v)
    requires e.Insert? ==> e.row.ws != Some(NIL_UUID)
    ensures Step(v, e).log == v.log && NoNilWorkspace(Step(v, e).tasks) && NobodyHolds(Step(v, e))
  {
    LogOnlyGrowsByCommit(v, e);
    if e.Commit? { assert !Holding(PhaseOf(v, e.caller)); }
    forall c: nat ensures !Holding(PhaseOf(Step(v, e), c)) { assert !Holding(PhaseOf(v, c)); }
  }

  /** A Postgres store without a workspace starts nothing: its guard asks for the
      nil workspace. */
  lemma {:induction false} UnscopedPostgresNeverStarts(w: World, es: seq<Event>)
    requires Fresh(w) && w.dialect == Postgres && w.store == None && NoNilWorkspace(w.tasks)
    requires forall e :: e in es && e.Insert? ==> e.row.ws != Some(NIL_UUID)
    ensures Run(w, es).log == [] && NoNilWorkspace(Run(w, es).tasks) && NobodyHolds(Run(w, es))
    decreases |es|
  {
    if |es| > 0 {
      var init, e := es[..|es| - 1], es[|es| - 1];
      assert e in es;
      UnscopedPostgresNeverStarts(w, init);
      RunKeepsDialect(w, init);
      UnscopedStep(Run(w, init), e);
    }
  }
}

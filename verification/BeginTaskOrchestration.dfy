/** The BeginTask control flow as one caller runs it, with every other caller
    and writer acting between its steps. Its execution is a run of the machine
    in `BeginTask`, so what holds of every run holds of it. */
module BeginTaskOrchestration {
  import opened Ids
  import opened BeginTask

  datatype Slot = Slot(events: seq<Event>, fails: bool)

  datatype Answer =
    | Started(row: TaskRow)
    | Already(row: TaskRow)
    | NotFound
    | AssigneeRequired
    | Failed

  /** A call goes on to its transaction only with such a row. */
  predicate Eligible(row: Option<TaskRow>) {
    row.Some? && row.value.status != IN_PROGRESS && !Blank(row.value.assignee)
  }

  /** The answer about a row that is not started. */
  function Refusal(row: Option<TaskRow>): Answer {
    if row.None? then NotFound
    else if row.value.status == IN_PROGRESS then Already(row.value)
    else if Blank(row.value.assignee) then AssigneeRequired
    else NotFound
  }

  predicate ByCaller(e: Event, c: nat) {
    (e.Read? || e.Begin? || e.Guard? || e.Resolve? || e.Log? || e.Commit? || e.Abort?) && e.caller == c
  }

  /** Another writer's step, or a step of another call. */
  ghost predicate OfOthers(e: Event, me: nat) {
    e.EditAssignee? || e.EditTitle? || e.SetStatus? || e.Insert? || e.Remove? || e.caller != me
  }

  function Others(es: seq<Event>, me: nat): (r: seq<Event>)
    ensures forall e :: e in r ==> !ByCaller(e, me)
    ensures (forall e :: e in es ==> OfOthers(e, me)) ==> r == es
  {
    if |es| == 0 then []
    else
      var init := Others(es[..|es| - 1], me);
      assert es == es[..|es| - 1] + [es[|es| - 1]] && es[|es| - 1] in es;
      if ByCaller(es[|es| - 1], me) then init else init + [es[|es| - 1]]
  }

  /** The log rows one call wrote. */
  function RowsBy(log: seq<LogRow>, c: nat): seq<LogRow> {
    if |log| == 0 then []
    else RowsBy(log[..|log| - 1], c) + if log[|log| - 1].caller == c then [log[|log| - 1]] else []
  }

  lemma RowsBySnoc(log: seq<LogRow>, r: LogRow, c: nat)
    ensures RowsBy(log + [r], c) == RowsBy(log, c) + (if r.caller == c then [r] else [])
  {
    assert (log + [r])[..|log|] == log;
  }

  /** One more row, for task `t`. */
  predicate OneMore(before: seq<LogRow>, after: seq<LogRow>, t: Uuid) {
    |after| == |before| + 1 && after[..|before|] == before && after[|before|].task == t
  }

  ghost predicate SameForMe(w: World, w': World, me: nat) {
    && PhaseOf(w', me) == PhaseOf(w, me)
    && RowsBy(w'.log, me) == RowsBy(w.log, me)
    && (w'.conn == Some(me) <==> w.conn == Some(me))
    && w'.dialect == w.dialect && w'.store == w.store
  }

  lemma OtherStep(w: World, e: Event, me: nat)
    requires !ByCaller(e, me)
    ensures SameForMe(w, Step(w, e), me)
  {
    if e.Commit? && PhaseOf(w, e.caller).Logged? {
      RowsBySnoc(w.log, LogRow(PhaseOf(w, e.caller).task, e.caller, PhaseOf(w, e.caller).note), me);
    }
  }

  lemma {:induction false} OtherSteps(w: World, es: seq<Event>, me: nat)
    requires Inv(w) && forall e :: e in es ==> !ByCaller(e, me)
    ensures SameForMe(w, Run(w, es), me) && Inv(Run(w, es))
    decreases |es|
  {
    if |es| > 0 {
      assert es[|es| - 1] in es;
      OtherSteps(w, es[..|es| - 1], me);
      OtherStep(Run(w, es[..|es| - 1]), es[|es| - 1], me);
      StepKeepsInv(Run(w, es[..|es| - 1]), es[|es| - 1]);
    }
  }

  class BeginTaskAdapter {
    const me: nat
    const id: Uuid
    const sched: nat -> Slot
    const start: World
    var w: World
    var clock: nat
    ghost var trace: seq<Event>
    /** The last moment at which this call saw its task in progress. */
    ghost var lastSeen: Option<nat>

    /** The task was in progress after the first `k` steps. */
    ghost predicate InProgressAt(k: nat)
      reads this`trace
    {
      k <= |trace| && InProgress(Run(start, trace[..k]), id)
    }

    ghost predicate Valid()
      reads this`w, this`trace, this`lastSeen
    {
      && w == Run(start, trace) && Inv(w)
      && (lastSeen.Some? ==> InProgressAt(lastSeen.value))
    }

    constructor (me: nat, id: Uuid, sched: nat -> Slot, start: World)
      requires Inv(start) && PhaseOf(start, me) == Idle && start.conn != Some(me)
      ensures this.me == me && this.id == id && this.sched == sched && this.start == start
      ensures Valid() && w == start && trace == [] && lastSeen == None
    {
      this.me, this.id, this.sched, this.start := me, id, sched, start;
      w, clock, trace, lastSeen := start, 0, [], None;
    }

    /** The task was in progress at some moment since `from`. */
    ghost predicate SeenInProgress(from: nat)
      reads this`trace
    {
      exists k :: from <= k && InProgressAt(k)
    }

    /** This call itself saw the task in progress since `from`. */
    ghost predicate SawSince(from: nat)
      reads this`lastSeen
    {
      lastSeen.Some? && from <= lastSeen.value
    }

    /** In a SQLite transaction this call has the one connection. */
    predicate Connected()
      reads this`w
    {
      w.dialect == Sqlite ==> w.conn == Some(me)
    }

    function Find(w: World): Option<TaskRow> {
      if id in w.tasks && Visible(w, w.tasks[id]) then Some(w.tasks[id]) else None
    }

    function Lookup(): Option<TaskRow>
      reads this`w
    {
      Find(w)
    }

    /** What a call does next about the row it read. */
    function Decision(row: Option<TaskRow>): Phase {
      if Eligible(row) then Checked(id, row.value.title) else Done
    }

    /** Nobody else moves before this call, and it does not fail. */
    ghost predicate Quiet(c: nat) {
      sched(c) == Slot([], false)
    }

    lemma KeepsSeen(es: seq<Event>)
      ensures lastSeen.Some? && lastSeen.value <= |trace| ==> (trace + es)[..lastSeen.value] == trace[..lastSeen.value]
    {
    }

    /** Everyone else moves; then the call may fail. */
    method Interfere() returns (ok: bool)
      requires Valid()
      modifies this`w, this`clock, this`trace
      ensures Valid() && old(trace) <= trace && SameForMe(old(w), w, me)
      ensures clock == old(clock) + 1 && ok == !sched(old(clock)).fails
      ensures sched(old(clock)).events == [] ==> w == old(w)
      ensures (forall e :: e in sched(old(clock)).events ==> OfOthers(e, me)) ==>
                w == Run(old(w), sched(old(clock)).events)
    {
      var slot := sched(clock);
      var es := Others(slot.events, me);
      RunConcat(start, trace, es);
      OtherSteps(w, es, me);
      KeepsSeen(es);
      w, clock, trace := Run(w, es), clock + 1, trace + es;
      ok := !slot.fails;
    }

    /** One step of this call. */
    method Do(e: Event)
      requires Valid()
      modifies this`w, this`trace
      ensures Valid() && w == Step(old(w), e) && trace == old(trace) + [e]
    {
      RunSnoc(start, trace, e);
      StepKeepsInv(w, e);
      KeepsSeen([e]);
      w, trace := Step(w, e), trace + [e];
    }

    /** Notes that the row is in progress now. */
    ghost method See()
      requires Valid() && InProgress(w, id)
      modifies this`lastSeen
      ensures Valid() && lastSeen == Some(|trace|)
    {
      assert trace[..|trace|] == trace;
      lastSeen := Some(|trace|);
    }

    /** The read itself, which already decides how the call goes on. */
    method ReadStep() returns (row: Option<TaskRow>)
      requires Valid() && PhaseOf(w, me) == Idle && ConnFree(w, Some(me))
      modifies this`w, this`trace
      ensures Valid() && old(trace) <= trace && w.log == old(w.log) && w.dialect == old(w.dialect)
                && w.conn == old(w.conn)
      ensures w.tasks == old(w.tasks) && row == old(Lookup()) && PhaseOf(w, me) == Decision(row)
      ensures w.locks == old(w.locks) && w.store == old(w.store)
    {
      row := Lookup();
      Do(Read(me, id));
    }

    method ReadExisting(ghost from: nat) returns (ok: bool, row: Option<TaskRow>)
      requires Valid() && PhaseOf(w, me) == Idle && from <= |trace|
      modifies this
      ensures Valid() && old(trace) <= trace && RowsBy(w.log, me) == old(RowsBy(w.log, me))
      ensures w.dialect == old(w.dialect) && (w.conn == Some(me) <==> old(w.conn) == Some(me))
      ensures !ok ==> PhaseOf(w, me) == Idle
      ensures ok ==> PhaseOf(w, me) == Decision(row)
      ensures ok && row.Some? && row.value.status == IN_PROGRESS ==> SawSince(from)
      ensures clock == old(clock) + 1
      ensures Quiet(old(clock)) && old(ConnFree(w, Some(me))) ==>
                && ok && row == old(Lookup())
                && w.tasks == old(w.tasks) && w.locks == old(w.locks) && w.conn == old(w.conn)
                && w.store == old(w.store)
    {
      ok := Interfere();
      ok := ok && ConnFree(w, Some(me));
      row := None;
      if ok {
        row := ReadStep();
        if row.Some? && row.value.status == IN_PROGRESS { See(); }
      }
    }

    method BeginTx() returns (ok: bool)
      requires Valid() && PhaseOf(w, me).Checked? && PhaseOf(w, me).task == id && w.conn != Some(me)
      modifies this
      ensures Valid() && old(trace) <= trace && RowsBy(w.log, me) == old(RowsBy(w.log, me))
                && w.dialect == old(w.dialect)
      ensures ok ==> PhaseOf(w, me).TxOpen? && PhaseOf(w, me).task == id && Connected()
      ensures !ok ==> PhaseOf(w, me).Checked? && w.conn != Some(me)
      ensures clock == old(clock) + 1
      ensures Quiet(old(clock)) && old(ConnFree(w, Some(me))) ==>
                ok && w.tasks == old(w.tasks) && w.locks == old(w.locks) && w.store == old(w.store)
    {
      ok := Interfere();
      ok := ok && ConnFree(w, Some(me));
      if ok { Do(Begin(me)); }
    }

    /** The update itself: it matches the row, or nothing. */
    method GuardStep() returns (guardBlocked: bool)
      requires Valid() && PhaseOf(w, me).TxOpen? && PhaseOf(w, me).task == id && Connected() && id !in w.locks
      modifies this`w, this`trace
      ensures Valid() && old(trace) <= trace && w.log == old(w.log) && w.dialect == old(w.dialect) && Connected()
      ensures guardBlocked == !(id in old(w).tasks && old(GuardHolds(w, w.tasks[id]))) && Lookup() == old(Lookup())
      ensures guardBlocked ==> PhaseOf(w, me) == Blocked(id)
      ensures !guardBlocked ==> PhaseOf(w, me).Flipped? && PhaseOf(w, me).task == id
    {
      guardBlocked := !(id in w.tasks && GuardHolds(w, w.tasks[id]));
      Do(Guard(me));
    }

    /** Waits for the row: what the others do meanwhile comes first. A row that is
        still locked then is a wait that never ends, and the call fails. */
    method GuardedUpdate() returns (ok: bool, guardBlocked: bool)
      requires Valid() && PhaseOf(w, me).TxOpen? && PhaseOf(w, me).task == id && Connected()
      modifies this
      ensures Valid() && old(trace) <= trace && RowsBy(w.log, me) == old(RowsBy(w.log, me))
                && w.dialect == old(w.dialect)
      ensures ok && guardBlocked ==> PhaseOf(w, me) == Blocked(id)
      ensures ok && !guardBlocked ==> PhaseOf(w, me).Flipped? && PhaseOf(w, me).task == id
      ensures clock == old(clock) + 1
      ensures Quiet(old(clock)) && id !in old(w).locks ==>
                ok && guardBlocked == !(id in old(w).tasks && old(GuardHolds(w, w.tasks[id])))
                  && Lookup() == old(Lookup())
      ensures ok ==> Connected()
    {
      ok := Interfere();
      ok := ok && id !in w.locks;
      guardBlocked := false;
      if ok { guardBlocked := GuardStep(); }
    }

    method DoResolve()
      requires Valid() && PhaseOf(w, me) == Blocked(id)
      modifies this`w, this`trace
      ensures Valid() && old(trace) <= trace && w.log == old(w.log) && w.dialect == old(w.dialect)
      ensures Lookup() == old(Lookup()) && (old(Connected()) ==> ConnFree(w, Some(me)))
      ensures PhaseOf(w, me) == Done && w.conn != Some(me)
    {
      Do(Resolve(me));
    }

    /** SQLite rolls back before it reads again; Postgres reads in the transaction. */
    method ReadAgain() returns (ok: bool, row: Option<TaskRow>)
      requires Valid() && PhaseOf(w, me) == Blocked(id) && Connected()
      modifies this
      ensures Valid() && old(trace) <= trace && RowsBy(w.log, me) == old(RowsBy(w.log, me))
                && w.dialect == old(w.dialect)
      ensures Quiet(old(clock)) ==> ok && row == old(Lookup())
      ensures row == Lookup() && (w.dialect == Postgres ==> PhaseOf(w, me) == Blocked(id))
      ensures w.dialect == Sqlite ==> PhaseOf(w, me) == Done && w.conn != Some(me)
    {
      if w.dialect == Sqlite { DoResolve(); }
      ok := Interfere();
      ok := ok && ConnFree(w, Some(me));
      row := Lookup();
    }

    /** Tells why the guard matched nothing. */
    method ResolveGuardBlocked(ghost from: nat) returns (r: Answer)
      requires Valid() && PhaseOf(w, me) == Blocked(id) && Connected() && from <= |trace|
      modifies this
      ensures Valid() && old(trace) <= trace && RowsBy(w.log, me) == old(RowsBy(w.log, me))
                && w.dialect == old(w.dialect)
      ensures !r.Started? && (Quiet(old(clock)) ==> r == Refusal(old(Lookup())))
      ensures r.Already? ==> r.row.status == IN_PROGRESS && SawSince(from)
    {
      var ok, row := ReadAgain();
      if !ok { return Failed; }
      if row == None {
        r := NotFound;
      } else if row.value.status == IN_PROGRESS {
        See();
        r := Already(row.value);
        if w.dialect == Postgres { DoResolve(); }
      } else {
        r := if Blank(row.value.assignee) then AssigneeRequired else NotFound;
      }
    }

    /** The insert itself. */
    method LogStep()
      requires Valid() && PhaseOf(w, me).Flipped? && PhaseOf(w, me).task == id && Connected()
      modifies this`w, this`trace
      ensures Valid() && old(trace) <= trace && w.log == old(w.log) && w.dialect == old(w.dialect)
      ensures PhaseOf(w, me).Logged? && PhaseOf(w, me).task == id && Connected()
    {
      Do(Log(me));
    }

    method CreateActivityLog() returns (ok: bool)
      requires Valid() && PhaseOf(w, me).Flipped? && PhaseOf(w, me).task == id && Connected()
      modifies this
      ensures Valid() && old(trace) <= trace && RowsBy(w.log, me) == old(RowsBy(w.log, me))
                && w.dialect == old(w.dialect)
      ensures ok ==> PhaseOf(w, me).Logged? && PhaseOf(w, me).task == id && Connected()
      ensures clock == old(clock) + 1 && ok == !sched(old(clock)).fails
    {
      ok := Interfere();
      if ok { LogStep(); }
    }

    /** The commit itself. */
    method CommitStep() returns (row: TaskRow)
      requires Valid() && PhaseOf(w, me).Logged? && PhaseOf(w, me).task == id && Connected()
      modifies this`w, this`trace
      ensures Valid() && old(trace) <= trace && w.dialect == old(w.dialect)
      ensures OneMore(old(RowsBy(w.log, me)), RowsBy(w.log, me), id)
      ensures InProgress(w, id) && row.status == IN_PROGRESS
      ensures Lookup().Some? && ConnFree(w, Some(me))
    {
      var ph := PhaseOf(w, me);
      CommitIsFlip(w, me);
      RowsBySnoc(w.log, LogRow(ph.task, me, ph.note), me);
      row := ph.row.(status := IN_PROGRESS);
      Do(Commit(me));
    }

    /** What became of the answer of a start that is committed. Postgres answers
        with the row its update returned. SQLite reads the task again, in the
        last call it makes: the answer is lost exactly when that read fails, does
        not get the connection, or finds no visible row. */
    ghost predicate Answered(r: Answer)
      reads this`w, this`clock
    {
      if w.dialect == Postgres then r.Started? && r.row.status == IN_PROGRESS
      else if clock == 0 || sched(clock - 1).fails || !ConnFree(w, Some(me)) then r == Failed
      else if Lookup() == None then r == NotFound
      else r == Started(Lookup().value)
    }

    method ReadBack() returns (r: Answer)
      requires Valid() && w.dialect == Sqlite
      modifies this`w, this`clock, this`trace
      ensures Valid() && old(trace) <= trace && w.dialect == Sqlite && RowsBy(w.log, me) == old(RowsBy(w.log, me))
      ensures clock == old(clock) + 1 && Answered(r)
      ensures sched(old(clock)).events == [] ==> w == old(w)
    {
      var ok := Interfere();
      if !ok || !ConnFree(w, Some(me)) { return Failed; }
      var row := Lookup();
      r := if row == None then NotFound else Started(row.value);
    }

    /** A start is committed and nothing keeps its answer back: one row more than
        `before`, `calls` calls after `c`, and one more on SQLite. */
    ghost predicate Begun(before: seq<LogRow>, c: nat, calls: nat)
      reads this`w, this`clock
    {
      && OneMore(before, RowsBy(w.log, me), id) && Lookup().Some? && ConnFree(w, Some(me))
      && clock == c + calls + if w.dialect == Postgres then 0 else 1
    }

    /** How a call may end that had written the rows `before`: it wrote nothing
        and does not answer Started, or it wrote one row for its task. */
    ghost predicate Settled(before: seq<LogRow>, r: Answer)
      reads this`w, this`clock
    {
      || (RowsBy(w.log, me) == before && !r.Started?)
      || (OneMore(before, RowsBy(w.log, me), id) && Answered(r))
    }

    /** The commit, seen as the moment the task is in progress. */
    method CommitNow(ghost from: nat) returns (ok: bool, row: TaskRow)
      requires Valid() && PhaseOf(w, me).Logged? && PhaseOf(w, me).task == id && Connected() && from <= |trace|
      modifies this
      ensures Valid() && old(trace) <= trace && w.dialect == old(w.dialect)
      ensures clock == old(clock) + 1 && ok == !sched(old(clock)).fails
      ensures !ok ==> RowsBy(w.log, me) == old(RowsBy(w.log, me))
      ensures ok ==> OneMore(old(RowsBy(w.log, me)), RowsBy(w.log, me), id) && SawSince(from)
      ensures ok ==> row.status == IN_PROGRESS && Lookup().Some? && ConnFree(w, Some(me))
    {
      row := TaskRow(None, IN_PROGRESS, None, "");
      ok := Interfere();
      if ok {
        row := CommitStep();
        See();
      }
    }

    method CommitTx(ghost from: nat) returns (r: Answer)
      requires Valid() && PhaseOf(w, me).Logged? && PhaseOf(w, me).task == id && Connected() && from <= |trace|
      modifies this
      ensures Valid() && old(trace) <= trace && w.dialect == old(w.dialect)
      ensures if sched(old(clock)).fails then RowsBy(w.log, me) == old(RowsBy(w.log, me)) && r == Failed
              else OneMore(old(RowsBy(w.log, me)), RowsBy(w.log, me), id) && Answered(r) && SawSince(from)
      ensures Quiet(old(clock)) && sched(old(clock) + 1).events == [] ==> Begun(old(RowsBy(w.log, me)), old(clock), 1)
    {
      var ok, flipped := CommitNow(from);
      if !ok { return Failed; }
      if w.dialect == Postgres { return Started(flipped); }
      r := ReadBack();
    }

    /** The deferred rollback. It does not change what the answer rests on. */
    method Rollback(ghost before: seq<LogRow>, ghost c: nat, ghost calls: nat, ghost r: Answer)
      requires Valid()
      modifies this`w, this`trace
      ensures Valid() && old(trace) <= trace && w.log == old(w.log) && w.dialect == old(w.dialect)
      ensures w.conn != Some(me) && PhaseOf(w, me) == Done
      ensures Lookup() == old(Lookup()) && (ConnFree(w, Some(me)) <==> old(ConnFree(w, Some(me))))
      ensures (Settled(before, r) <==> old(Settled(before, r)))
                && (Begun(before, c, calls) <==> old(Begun(before, c, calls)))
    {
      Do(Abort(me));
    }
  }

  /** Nothing is in the way of a start: the row is there, satisfies the guard and
      is not locked, and the connection is free. */
  predicate Startable(w: World, t: Uuid, me: nat) {
    && t in w.tasks && Visible(w, w.tasks[t]) && GuardHolds(w, w.tasks[t])
    && t !in w.locks && ConnFree(w, Some(me))
  }

  /** Nobody else acts between the statements of the transaction and on SQLite
      the read after it, and no call fails up to the commit. */
  ghost predicate UndisturbedInTx(a: BeginTaskAdapter, c: nat) {
    a.Quiet(c) && a.Quiet(c + 1) && a.Quiet(c + 2) && a.sched(c + 3).events == []
  }

  /** The guarded update will match. */
  predicate Flippable(w: World, t: Uuid) {
    t !in w.locks && t in w.tasks && GuardHolds(w, w.tasks[t])
  }

  /** From the flip on: the log row, then the commit. */
  method LogAndCommit(a: BeginTaskAdapter, ghost from: nat) returns (r: Answer)
    requires a.Valid() && PhaseOf(a.w, a.me).Flipped? && PhaseOf(a.w, a.me).task == a.id && a.Connected()
               && from <= |a.trace|
    modifies a
    ensures a.Valid() && old(a.trace) <= a.trace && a.w.dialect == old(a.w.dialect) && !r.Already?
    ensures a.Settled(old(RowsBy(a.w.log, a.me)), r) && (r.Started? ==> a.SawSince(from))
    ensures a.Quiet(old(a.clock)) && a.Quiet(old(a.clock) + 1) && a.sched(old(a.clock) + 2).events == [] ==>
              a.Begun(old(RowsBy(a.w.log, a.me)), old(a.clock), 2)
  {
    var ok := a.CreateActivityLog();
    if ok { r := a.CommitTx(from); } else { r := Failed; }
  }

  method InTransaction(a: BeginTaskAdapter, ghost from: nat) returns (r: Answer)
    requires a.Valid() && PhaseOf(a.w, a.me).TxOpen? && PhaseOf(a.w, a.me).task == a.id && a.Connected()
               && from <= |a.trace|
    modifies a
    ensures a.Valid() && old(a.trace) <= a.trace && a.w.dialect == old(a.w.dialect)
    ensures r.Already? ==> r.row.status == IN_PROGRESS && a.SawSince(from)
    ensures a.Settled(old(RowsBy(a.w.log, a.me)), r) && (r.Started? ==> a.SawSince(from))
    ensures UndisturbedInTx(a, old(a.clock)) && old(Flippable(a.w, a.id)) ==>
              a.Begun(old(RowsBy(a.w.log, a.me)), old(a.clock), 3)
    ensures UndisturbedInTx(a, old(a.clock)) && old(a.id !in a.w.locks && !Flippable(a.w, a.id)) ==>
              r == Refusal(old(a.Lookup())) && RowsBy(a.w.log, a.me) == old(RowsBy(a.w.log, a.me))
  {
    ghost var clear := UndisturbedInTx(a, a.clock) && Flippable(a.w, a.id);
    var ok, guardBlocked := a.GuardedUpdate();
    assert clear ==> ok && !guardBlocked;
    if !ok {
      r := Failed;
    } else if guardBlocked {
      r := a.ResolveGuardBlocked(from);
    } else {
      r := LogAndCommit(a, from);
    }
  }

  /** The transaction, up to and with the deferred rollback. */
  method Transaction(a: BeginTaskAdapter, ghost from: nat) returns (r: Answer)
    requires a.Valid() && PhaseOf(a.w, a.me).TxOpen? && PhaseOf(a.w, a.me).task == a.id && a.Connected()
               && from <= |a.trace|
    modifies a
    ensures a.Valid() && old(a.trace) <= a.trace && a.w.conn != Some(a.me) && PhaseOf(a.w, a.me) == Done
    ensures a.w.dialect == old(a.w.dialect)
    ensures r.Already? ==> r.row.status == IN_PROGRESS && a.SawSince(from)
    ensures a.Settled(old(RowsBy(a.w.log, a.me)), r) && (r.Started? ==> a.SawSince(from))
    ensures UndisturbedInTx(a, old(a.clock)) && old(Flippable(a.w, a.id)) ==>
              a.Begun(old(RowsBy(a.w.log, a.me)), old(a.clock), 3)
    ensures UndisturbedInTx(a, old(a.clock)) && old(a.id !in a.w.locks && !Flippable(a.w, a.id)) ==>
              r == Refusal(old(a.Lookup())) && RowsBy(a.w.log, a.me) == old(RowsBy(a.w.log, a.me))
  {
    ghost var before, c := RowsBy(a.w.log, a.me), a.clock;
    r := InTransaction(a, from);
    a.Rollback(before, c, 3, r);
  }

  /** Nobody else acts between the calls of a start, and none of them fails up to
      the commit. */
  ghost predicate Undisturbed(a: BeginTaskAdapter, c: nat) {
    a.Quiet(c) && a.Quiet(c + 1) && UndisturbedInTx(a, c + 2)
  }

  /** The call has nothing to wait for and its row is not to be started: the read
      outside the transaction shows it, undisturbed, or the guard does. */
  ghost predicate TurnedDown(a: BeginTaskAdapter, c: nat, w: World) {
    && ConnFree(w, Some(a.me))
    && if Eligible(a.Find(w)) then Undisturbed(a, c) && a.id !in w.locks && !Flippable(w, a.id) else a.Quiet(c)
  }

  /** Up to the open transaction: the read outside it may already answer. */
  method ReadAndBegin(a: BeginTaskAdapter, ghost from: nat) returns (answer: Option<Answer>)
    requires a.Valid() && PhaseOf(a.w, a.me) == Idle && a.w.conn != Some(a.me) && from == |a.trace|
    modifies a
    ensures a.Valid() && old(a.trace) <= a.trace && a.w.dialect == old(a.w.dialect)
    ensures RowsBy(a.w.log, a.me) == old(RowsBy(a.w.log, a.me))
    ensures answer == None ==> PhaseOf(a.w, a.me).TxOpen? && PhaseOf(a.w, a.me).task == a.id && a.Connected()
    ensures answer.Some? ==> a.w.conn != Some(a.me) && !Holding(PhaseOf(a.w, a.me)) && !answer.value.Started?
    ensures answer.Some? && answer.value.Already? ==> answer.value.row.status == IN_PROGRESS && a.SawSince(from)
    ensures a.Quiet(old(a.clock)) && old(ConnFree(a.w, Some(a.me)) && !Eligible(a.Lookup())) ==>
              answer == Some(Refusal(old(a.Lookup())))
    ensures a.Quiet(old(a.clock)) && a.Quiet(old(a.clock) + 1)
              && old(ConnFree(a.w, Some(a.me)) && Eligible(a.Lookup())) ==>
              && answer == None && a.clock == old(a.clock) + 2 && a.Lookup() == old(a.Lookup())
              && (Flippable(a.w, a.id) <==> old(Flippable(a.w, a.id))) && a.w.locks == old(a.w.locks)
  {
    var ok, existing := a.ReadExisting(from);
    if !ok { return Some(Failed); }
    if existing == None { return Some(NotFound); }
    if existing.value.status == IN_PROGRESS { return Some(Already(existing.value)); }
    if Blank(existing.value.assignee) { return Some(AssigneeRequired); }
    ok := a.BeginTx();
    answer := if ok then None else Some(Failed);
  }

  /** The body of the call, up to and with the deferred rollback. */
  method BeginTaskBody(a: BeginTaskAdapter, ghost from: nat) returns (r: Answer)
    requires a.Valid() && PhaseOf(a.w, a.me) == Idle && a.w.conn != Some(a.me) && from == |a.trace|
    modifies a
    ensures a.Valid() && old(a.trace) <= a.trace && a.w.conn != Some(a.me) && !Holding(PhaseOf(a.w, a.me))
    ensures a.w.dialect == old(a.w.dialect)
    ensures r.Already? ==> r.row.status == IN_PROGRESS && a.SawSince(from)
    ensures a.Settled(old(RowsBy(a.w.log, a.me)), r) && (r.Started? ==> a.SawSince(from))
    ensures Undisturbed(a, old(a.clock)) && old(Startable(a.w, a.id, a.me)) ==>
              a.Begun(old(RowsBy(a.w.log, a.me)), old(a.clock), 5)
    ensures TurnedDown(a, old(a.clock), old(a.w)) ==>
              r == Refusal(old(a.Lookup())) && RowsBy(a.w.log, a.me) == old(RowsBy(a.w.log, a.me))
  {
    var answer := ReadAndBegin(a, from);
    if answer.Some? { return answer.value; }
    r := Transaction(a, from);
  }

  lemma NoLock(a: BeginTaskAdapter)
    requires a.Valid() && !Holding(PhaseOf(a.w, a.me))
    ensures forall t :: t in a.w.locks ==> a.w.locks[t] != a.me
  {
    forall t | t in a.w.locks ensures a.w.locks[t] != a.me {
      assert LockOk(a.w, t);
    }
  }

  /** The store sees the task, by the columns. */
  ghost predicate Seen(w: World, t: Uuid) {
    t in w.tasks && (w.store.Some? ==> w.tasks[t].ws == w.store)
  }

  /** Nobody else acts during the call, none of its statements up to the commit
      fails, and there is no lock and no connection to wait for. */
  ghost predicate Alone(a: BeginTaskAdapter, c: nat, w: World) {
    Undisturbed(a, c) && a.id !in w.locks && (w.dialect == Sqlite ==> w.conn == None)
  }

  /** What the columns of the task at the call decide when nobody interferes:
      `r` is the answer, `before` and `after` are the log rows of the call. */
  ghost predicate DecidedByColumns(w: World, t: Uuid, r: Answer, before: seq<LogRow>, after: seq<LogRow>) {
    && (!Seen(w, t) ==> r == NotFound)
    && (Seen(w, t) && w.tasks[t].status == "in_progress" ==> r == Already(w.tasks[t]))
    && (Seen(w, t) && w.tasks[t].status != "in_progress" ==> (r == AssigneeRequired <==> !Assigned(w.tasks[t])))
    && (if t in w.tasks && MayStart(w.dialect, w.store, w.tasks[t]) then OneMore(before, after, t) else after == before)
  }

  lemma ColumnsDecide(a: BeginTaskAdapter, c: nat, w: World, r: Answer, before: seq<LogRow>)
    requires Alone(a, c, w) && a.Settled(before, r)
    requires Startable(w, a.id, a.me) ==> a.Begun(before, c, 5)
    requires TurnedDown(a, c, w) ==> r == Refusal(a.Find(w)) && RowsBy(a.w.log, a.me) == before
    ensures DecidedByColumns(w, a.id, r, before, RowsBy(a.w.log, a.me))
  {
    if a.id in w.tasks {
      BlankIff(w.tasks[a.id]);
      GuardIff(w, w.tasks[a.id]);
    }
    assert Startable(w, a.id, a.me) || TurnedDown(a, c, w);
  }

  /** One BeginTask call. It is a run of the machine; it leaves neither a lock
      nor a connection behind; a good answer means the task was in progress at
      some moment of the call. Either the call wrote no log row and does not
      answer Started, or it wrote one for its task and answers Started unless
      SQLite lost the answer. Undisturbed on a task that can be started it
      starts it; alone the columns of the task decide the answer. */
  method BeginTaskOrchestration(a: BeginTaskAdapter) returns (r: Answer)
    requires a.Valid() && PhaseOf(a.w, a.me) == Idle && a.w.conn != Some(a.me)
    modifies a
    ensures a.w == Run(a.start, a.trace) && old(a.trace) <= a.trace && Inv(a.w)
    ensures a.w.conn != Some(a.me) && forall t :: t in a.w.locks ==> a.w.locks[t] != a.me
    ensures r.Started? || r.Already? ==> a.SeenInProgress(|old(a.trace)|)
    ensures r.Already? ==> r.row.status == IN_PROGRESS
    ensures a.Settled(old(RowsBy(a.w.log, a.me)), r)
    ensures Undisturbed(a, old(a.clock)) && old(Startable(a.w, a.id, a.me)) ==>
              a.Begun(old(RowsBy(a.w.log, a.me)), old(a.clock), 5)
    ensures TurnedDown(a, old(a.clock), old(a.w)) ==>
              r == Refusal(old(a.Lookup())) && RowsBy(a.w.log, a.me) == old(RowsBy(a.w.log, a.me))
    ensures Alone(a, old(a.clock), old(a.w)) ==>
              DecidedByColumns(old(a.w), a.id, r, old(RowsBy(a.w.log, a.me)), RowsBy(a.w.log, a.me))
    ensures a.w.dialect == old(a.w.dialect)
  {
    ghost var from, c, was, before := |a.trace|, a.clock, a.w, RowsBy(a.w.log, a.me);
    r := BeginTaskBody(a, from);
    if Alone(a, c, was) { ColumnsDecide(a, c, was, r, before); }
    if a.SawSince(from) { assert a.InProgressAt(a.lastSeen.value); }
    NoLock(a);
  }

  /** A start on SQLite is answered by the read after it. */
  lemma LostOrStarted(a: BeginTaskAdapter, before: seq<LogRow>, c: nat, r: Answer)
    ensures a.w.dialect == Sqlite && a.Settled(before, r) && a.Begun(before, c, 5) ==>
              && OneMore(before, RowsBy(a.w.log, a.me), a.id)
              && if a.sched(c + 5).fails then r == Failed else r.Started?
  {
  }

  /** A start on SQLite whose answer is lost: only the read after the commit
      fails, the log row stays and the caller is told of a failure. */
  method SqliteCanLoseTheAnswer(a: BeginTaskAdapter) returns (r: Answer)
    requires a.Valid() && PhaseOf(a.w, a.me) == Idle && a.w.conn != Some(a.me) && a.w.dialect == Sqlite
    requires Startable(a.w, a.id, a.me) && Undisturbed(a, a.clock)
    modifies a
    ensures OneMore(old(RowsBy(a.w.log, a.me)), RowsBy(a.w.log, a.me), a.id)
    ensures if a.sched(old(a.clock) + 5).fails then r == Failed else r.Started?
  {
    ghost var before, c := RowsBy(a.w.log, a.me), a.clock;
    r := BeginTaskOrchestration(a);
    LostOrStarted(a, before, c, r);
  }
}

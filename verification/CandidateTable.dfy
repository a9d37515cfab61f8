/** The completion-candidate table and what its statements keep. */
module CandidateTable {
  import opened Ids
  import opened Ordering
  import opened Seqs
  import S = StableSort

  datatype Reason =
    | StaleInProgress | FinishWorkGap | ArtifactEvidence | CompletionSignal | PrMerged | PrMergedRepoUnverified
    | UnknownReason(text: string)

  datatype Confidence = High | Medium | Low | UnknownConfidence(text: string)

  datatype Status = Pending | AutoApplied

  /** A UTC instant: the text `2006-01-02T15:04:05` of its second, whose text
      order is the order in time, and the milliseconds. */
  datatype Instant = Instant(second: string, millis: nat)

  predicate Before(a: Instant, b: Instant) {
    LexLess(a.second, b.second) || (a.second == b.second && a.millis < b.millis)
  }

  datatype Row = Row(
    task: Uuid, reason: Reason, ws: Option<Uuid>, repo: Option<string>, evidence: seq<string>, confidence: Confidence,
    artifact: Option<string>, status: Status, detectedAt: Instant, resolvedAt: Option<Instant>)

  datatype UpsertParams = UpsertParams(
    task: Uuid, reason: Reason, ws: Option<Uuid>, repo: string, evidence: seq<string>, confidence: Confidence,
    artifact: string)

  predicate ValidParams(p: UpsertParams) {
    p.task != NIL_UUID && !p.reason.UnknownReason? && !p.confidence.UnknownConfidence?
  }

  predicate HasKey(row: Row, task: Uuid, reason: Reason) {
    row.task == task && row.reason == reason
  }

  /** The first row of a (task, reason), or the length of the table. */
  function IndexOf(rows: seq<Row>, task: Uuid, reason: Reason): (i: nat)
    ensures i <= |rows|
    ensures i < |rows| ==> HasKey(rows[i], task, reason)
    ensures forall j :: 0 <= j < i ==> !HasKey(rows[j], task, reason)
  {
    if |rows| == 0 then 0
    else
      var i := IndexOf(rows[..|rows| - 1], task, reason);
      if i < |rows| - 1 then i
      else if HasKey(rows[|rows| - 1], task, reason) then |rows| - 1
      else |rows|
  }

  /** Empty text is stored as NULL. */
  function NullIfEmpty(s: string): Option<string> {
    if s == "" then None else Some(s)
  }

  /** `COALESCE(excluded.x, x)`. */
  function Coalesce<T>(a: Option<T>, b: Option<T>): Option<T> {
    if a.Some? then a else b
  }

  /** INSERT ... ON CONFLICT (task_id, reason) DO UPDATE: an existing row keeps
      its status, resolution, workspace and repository. */
  function Upserted(rows: seq<Row>, ws: Option<Uuid>, p: UpsertParams, now: Instant): seq<Row> {
    var i := IndexOf(rows, p.task, p.reason);
    if i < |rows| then
      rows[i := rows[i].(detectedAt := now, confidence := p.confidence, evidence := p.evidence,
                         artifact := Coalesce(NullIfEmpty(p.artifact), rows[i].artifact))]
    else
      rows + [Row(p.task, p.reason, Coalesce(p.ws, ws), NullIfEmpty(p.repo), p.evidence, p.confidence,
                  NullIfEmpty(p.artifact), Pending, now, None)]
  }

  /** Records an automatic completion; an existing row is turned over to it. */
  function AutoApply(rows: seq<Row>, ws: Option<Uuid>, task: Uuid, evidence: seq<string>, artifact: string,
                     now: Instant): seq<Row> {
    var i := IndexOf(rows, task, ArtifactEvidence);
    if i < |rows| then
      rows[i := rows[i].(detectedAt := now, evidence := evidence,
        artifact := Coalesce(NullIfEmpty(artifact), rows[i].artifact),
                         status := AutoApplied, resolvedAt := Some(now))]
    else
      rows + [Row(task, ArtifactEvidence, ws, None, evidence, High, NullIfEmpty(artifact), AutoApplied, now, Some(now))]
  }

  function Digits3(n: nat): string {
    ['0' + (n / 100 % 10) as char, '0' + (n / 10 % 10) as char, '0' + (n % 10) as char]
  }

  /** How SQLite rows hold an instant: RFC 3339 with milliseconds. */
  function StoredText(t: Instant): string {
    t.second + ("." + Digits3(t.millis) + "Z")
  }

  /** How the SQLite prune writes its cutoff: RFC 3339 without a fraction. */
  function CutoffText(t: Instant): string {
    t.second + "Z"
  }

  predicate Expired(dialect: Dialect, cutoff: Instant, resolved: Instant) {
    match dialect
    case Postgres => Before(resolved, cutoff)
    case Sqlite => LexLess(StoredText(resolved), CutoffText(cutoff))
  }

  function Survives(dialect: Dialect, cutoff: Instant): Row -> bool {
    (r: Row) => !(r.resolvedAt.Some? && Expired(dialect, cutoff, r.resolvedAt.value))
  }

  function Pruned(rows: seq<Row>, dialect: Dialect, cutoff: Instant): seq<Row> {
    S.Filter(Survives(dialect, cutoff), rows)
  }

  datatype Op =
    | Upsert(p: UpsertParams, now: Instant)
    | WriteAutoApplied(task: Uuid, evidence: seq<string>, artifact: string, now: Instant)
    | PruneResolved(dialect: Dialect, cutoff: Instant)

  /** One statement; refused parameters change nothing. */
  function Apply(rows: seq<Row>, ws: Option<Uuid>, op: Op): seq<Row> {
    match op
    case Upsert(p, now) => if ValidParams(p) then Upserted(rows, ws, p, now) else rows
    case WriteAutoApplied(task, evidence, artifact, now) =>
      if task != NIL_UUID then AutoApply(rows, ws, task, evidence, artifact, now) else rows
    case PruneResolved(dialect, cutoff) => Pruned(rows, dialect, cutoff)
  }

  ghost predicate UniqueKeys(rows: seq<Row>) {
    forall i, j :: 0 <= i < j < |rows| ==> rows[i].task != rows[j].task || rows[i].reason != rows[j].reason
  }

  predicate RowOk(r: Row) {
    && (r.status == Pending <==> r.resolvedAt.None?)
    && (r.status == AutoApplied ==> r.reason == ArtifactEvidence)
    && r.task != NIL_UUID && !r.reason.UnknownReason?
  }

  /** (task, reason) is unique, and a row is pending exactly when unresolved. */
  ghost predicate Inv(rows: seq<Row>) {
    UniqueKeys(rows) && forall i :: 0 <= i < |rows| ==> RowOk(rows[i])
  }

  lemma {:induction false} UpsertKeepsInv(rows: seq<Row>, ws: Option<Uuid>, p: UpsertParams, now: Instant)
    requires Inv(rows) && ValidParams(p)
    ensures Inv(Upserted(rows, ws, p, now))
  {
  }

  lemma {:induction false} AutoApplyKeepsInv(rows: seq<Row>, ws: Option<Uuid>, task: Uuid, evidence: seq<string>,
                                             artifact: string, now: Instant)
    requires Inv(rows) && task != NIL_UUID
    ensures Inv(AutoApply(rows, ws, task, evidence, artifact, now))
  {
  }

  lemma {:induction false} FilterKeepsInv(keep: Row -> bool, rows: seq<Row>)
    requires Inv(rows)
    ensures Inv(S.Filter(keep, rows))
    decreases |rows|
  {
    if |rows| > 0 {
      var init, last := rows[..|rows| - 1], rows[|rows| - 1];
      FilterKeepsInv(keep, init);
      var f := S.Filter(keep, init);
      forall i | 0 <= i < |f| ensures f[i].task != last.task || f[i].reason != last.reason {
        assert f[i] in f;
        var k :| 0 <= k < |init| && init[k] == f[i];
        assert rows[k] == f[i];
      }
    }
  }

  lemma {:induction false} ApplyKeepsInv(rows: seq<Row>, ws: Option<Uuid>, op: Op)
    requires Inv(rows)
    ensures Inv(Apply(rows, ws, op))
  {
    match op
    case Upsert(p, now) => if ValidParams(p) { UpsertKeepsInv(rows, ws, p, now); }
    case WriteAutoApplied(task, evidence, artifact, now) =>
      if task != NIL_UUID { AutoApplyKeepsInv(rows, ws, task, evidence, artifact, now); }
    case PruneResolved(dialect, cutoff) => FilterKeepsInv(Survives(dialect, cutoff), rows);
  }

  /** The new artifact wins over the one that is there; empty text is none. */
  ghost predicate ArtifactIs(after: Option<string>, given: string, before: Option<string>) {
    after == if given != "" then Some(given) else before
  }

  /** An upsert leaves every other row alone. An existing row of its key takes the
      new moment, confidence, evidence and artifact and keeps the rest; otherwise a
      pending row is added. */
  lemma {:induction false} UpsertEffect(rows: seq<Row>, ws: Option<Uuid>, p: UpsertParams, now: Instant)
    requires Inv(rows)
    ensures var after := Apply(rows, ws, Upsert(p, now));
            if p.task == NIL_UUID || p.reason.UnknownReason? || p.confidence.UnknownConfidence? then after == rows
            else
            && |rows| <= |after| <= |rows| + 1
            && (|after| == |rows| + 1 <==> forall i :: 0 <= i < |rows| ==> !HasKey(rows[i], p.task, p.reason))
            && (forall i :: 0 <= i < |rows| && !HasKey(rows[i], p.task, p.reason) ==> after[i] == rows[i])
            && (forall i :: 0 <= i < |rows| && rows[i].task == p.task && rows[i].reason == p.reason ==>
                 var a, r := after[i], rows[i];
                 && a.task == r.task && a.reason == r.reason && a.ws == r.ws && a.repo == r.repo
                 && a.status == r.status && a.resolvedAt == r.resolvedAt
                 && a.detectedAt == now && a.confidence == p.confidence && a.evidence == p.evidence
                 && ArtifactIs(a.artifact, p.artifact, r.artifact))
            && (|after| == |rows| + 1 ==>
                 var a := after[|rows|];
                 && a.task == p.task && a.reason == p.reason && a.ws == (if p.ws.Some? then p.ws else ws)
                 && a.repo == (if p.repo != "" then Some(p.repo) else None)
                 && a.status == Pending && a.resolvedAt == None
                 && a.detectedAt == now && a.confidence == p.confidence && a.evidence == p.evidence
                 && ArtifactIs(a.artifact, p.artifact, None))
  {
  }

  /** An automatic completion turns the task's artifact row over, pending or not,
      and keeps its confidence, workspace and repository; otherwise it adds one. */
  lemma {:induction false} AutoApplyEffect(rows: seq<Row>, ws: Option<Uuid>, task: Uuid, evidence: seq<string>,
                                           artifact: string, now: Instant)
    requires Inv(rows)
    ensures var after := Apply(rows, ws, WriteAutoApplied(task, evidence, artifact, now));
            if task == NIL_UUID then after == rows
            else
            && |rows| <= |after| <= |rows| + 1
            && (|after| == |rows| + 1 <==> forall i :: 0 <= i < |rows| ==> !HasKey(rows[i], task, ArtifactEvidence))
            && (forall i :: 0 <= i < |rows| && !HasKey(rows[i], task, ArtifactEvidence) ==> after[i] == rows[i])
            && (forall i :: 0 <= i < |rows| && rows[i].task == task && rows[i].reason == ArtifactEvidence ==>
                 var a, r := after[i], rows[i];
                 && a.task == r.task && a.reason == r.reason && a.ws == r.ws && a.repo == r.repo
                 && a.confidence == r.confidence && a.status == AutoApplied && a.resolvedAt == Some(now)
                 && a.detectedAt == now && a.evidence == evidence && ArtifactIs(a.artifact, artifact, r.artifact))
            && (|after| == |rows| + 1 ==>
                 var a := after[|rows|];
                 && a.task == task && a.reason == ArtifactEvidence && a.ws == ws && a.repo == None
                 && a.confidence == High && a.status == AutoApplied && a.resolvedAt == Some(now)
                 && a.detectedAt == now && a.evidence == evidence && ArtifactIs(a.artifact, artifact, None))
  {
  }

  /** The row shows what was last found about its task. */
  ghost predicate IsFor(r: Row, p: UpsertParams) {
    && r.task == p.task && r.reason == p.reason && r.confidence == p.confidence && r.evidence == p.evidence
    && (p.artifact != "" ==> r.artifact == Some(p.artifact))
  }

  lemma FirstIsIndex(rows: seq<Row>, task: Uuid, reason: Reason, i: nat)
    requires i < |rows| && HasKey(rows[i], task, reason) && forall j :: 0 <= j < i ==> !HasKey(rows[j], task, reason)
    ensures IndexOf(rows, task, reason) == i
  {
    var k := IndexOf(rows, task, reason);
    assert !(k < i) && !(i < k);
  }

  lemma {:induction false} UpsertedHasRow(rows: seq<Row>, ws: Option<Uuid>, p: UpsertParams, now: Instant)
    ensures var after := Upserted(rows, ws, p, now);
            var k := IndexOf(after, p.task, p.reason);
            k < |after| && HasKey(after[k], p.task, p.reason) && IsFor(after[k], p) && after[k].detectedAt == now
  {
    var i := IndexOf(rows, p.task, p.reason);
    FirstIsIndex(Upserted(rows, ws, p, now), p.task, p.reason, i);
  }

  ghost predicate Lives(rows: seq<Row>, task: Uuid, reason: Reason) {
    exists r :: r in rows && HasKey(r, task, reason)
  }

  ghost predicate ArtifactKnown(rows: seq<Row>, task: Uuid, reason: Reason) {
    exists r :: r in rows && HasKey(r, task, reason) && r.artifact.Some?
  }

  lemma {:induction false} WriteKeepsArtifact(rows: seq<Row>, ws: Option<Uuid>, op: Op, k: nat)
    requires !op.PruneResolved? && k < |rows| && rows[k].artifact.Some?
    ensures var after := Apply(rows, ws, op);
            k < |after| && after[k].task == rows[k].task && after[k].reason == rows[k].reason && after[k].artifact.Some?
  {
  }

  lemma {:induction false} SameKeySameRow(rows: seq<Row>, r: Row, s: Row)
    requires Inv(rows) && r in rows && s in rows && r.task == s.task && r.reason == s.reason
    ensures r == s
  {
    var k :| 0 <= k < |rows| && rows[k] == r;
    var j :| 0 <= j < |rows| && rows[j] == s;
  }

  lemma {:induction false} OneStepKeepsArtifact(rows: seq<Row>, ws: Option<Uuid>, op: Op, task: Uuid, reason: Reason)
    requires Inv(rows) && ArtifactKnown(rows, task, reason) && Lives(Apply(rows, ws, op), task, reason)
    ensures ArtifactKnown(Apply(rows, ws, op), task, reason)
  {
    var r :| r in rows && HasKey(r, task, reason) && r.artifact.Some?;
    var after := Apply(rows, ws, op);
    if op.PruneResolved? {
      var s :| s in after && HasKey(s, task, reason);
      SameKeySameRow(rows, r, s);
    } else {
      var k :| 0 <= k < |rows| && rows[k] == r;
      WriteKeepsArtifact(rows, ws, op, k);
      assert after[k] in after;
    }
  }

  /** The SQLite comparison of texts works by whole seconds: it takes everything
      resolved up to the end of the cutoff's second. */
  lemma {:induction false} SqliteExpiresBySecond(cutoff: Instant, resolved: Instant)
    requires |resolved.second| == |cutoff.second|
    ensures Expired(Sqlite, cutoff, resolved) <==>
              LexLess(resolved.second, cutoff.second) || resolved.second == cutoff.second
  {
    if resolved.second == cutoff.second {
      LexSharedPrefix(resolved.second, "." + Digits3(resolved.millis) + "Z", "Z");
    } else {
      LexPrefixDecides(resolved.second, cutoff.second, "." + Digits3(resolved.millis) + "Z", "Z");
    }
  }

  /** Postgres removes what was resolved before the cutoff, to the millisecond;
      SQLite, on texts of one length, up to the end of the cutoff's second. */
  ghost predicate IsOld(dialect: Dialect, cutoff: Instant, at: Instant) {
    || LexLess(at.second, cutoff.second)
    || (at.second == cutoff.second && (dialect == Postgres ==> at.millis < cutoff.millis))
  }

  /** What a prune removes is resolved and old; every pending row stays. */
  lemma {:induction false} PruneEffect(rows: seq<Row>, ws: Option<Uuid>, dialect: Dialect, cutoff: Instant)
    requires Inv(rows)
    ensures forall r :: r in rows ==>
              (r !in Apply(rows, ws, PruneResolved(dialect, cutoff)) <==>
                r.status == AutoApplied && Expired(dialect, cutoff, r.resolvedAt.value))
    ensures forall r :: r in rows && (r.resolvedAt.Some? ==> |r.resolvedAt.value.second| == |cutoff.second|) ==>
              (r !in Apply(rows, ws, PruneResolved(dialect, cutoff)) <==>
                r.status == AutoApplied && r.resolvedAt.Some? && IsOld(dialect, cutoff, r.resolvedAt.value))
    ensures forall r :: r in Apply(rows, ws, PruneResolved(dialect, cutoff)) ==> r in rows
  {
    forall r | r in rows
      ensures r !in Pruned(rows, dialect, cutoff) <==>
                r.status == AutoApplied && Expired(dialect, cutoff, r.resolvedAt.value)
      ensures r.resolvedAt.Some? && |r.resolvedAt.value.second| == |cutoff.second| ==>
                (Expired(dialect, cutoff, r.resolvedAt.value) <==> IsOld(dialect, cutoff, r.resolvedAt.value))
    {
      var k :| 0 <= k < |rows| && rows[k] == r;
      assert RowOk(rows[k]);
      if r.resolvedAt.Some? && |r.resolvedAt.value.second| == |cutoff.second| {
        SqliteExpiresBySecond(cutoff, r.resolvedAt.value);
      }
    }
  }

  lemma ThreeChars(a: string, b: string)
    requires |a| == |b| == 3
    ensures LexLess(a, b) <==>
            a[0] < b[0] || (a[0] == b[0] && (a[1] < b[1] || (a[1] == b[1] && a[2] < b[2])))
  {
    assert LexLess(a[1..], b[1..]) <==>
           a[1] < b[1] || (a[1] == b[1] && LexLess(a[1..][1..], b[1..][1..]));
    assert LexLess(a[1..][1..], b[1..][1..]) <==>
           a[2] < b[2] || (a[2] == b[2] && LexLess(a[1..][1..][1..], b[1..][1..][1..]));
  }

  lemma DigitsOf(n: nat, q: nat, h: nat)
    requires n < 1000 && q == n / 10 && h == q / 10
    ensures h == n / 100 == n / 100 % 10 && n == h * 100 + q % 10 * 10 + n % 10
  {
    assert n == q * 10 + n % 10;
    assert q == h * 10 + q % 10;
    assert h < 10;
  }

  lemma Digits3Order(m: nat, n: nat)
    requires m < 1000 && n < 1000
    ensures |Digits3(m)| == |Digits3(n)| == 3 && (LexLess(Digits3(m), Digits3(n)) <==> m < n)
  {
    ThreeChars(Digits3(m), Digits3(n));
    DigitsOf(m, m / 10, m / 10 / 10);
    DigitsOf(n, n / 10, n / 10 / 10);
  }

  lemma FractionOrder(x: string, y: string)
    requires |x| == |y|
    ensures LexLess("." + x + "Z", "." + y + "Z") <==> LexLess(x, y)
  {
    Associative(".", x, "Z");
    Associative(".", y, "Z");
    LexSharedPrefix(".", x + "Z", y + "Z");
    if x == y {
      LexSharedPrefix(x, "Z", "Z");
      LexTrichotomy(x, x);
      LexTrichotomy("Z", "Z");
    } else {
      LexPrefixDecides(x, y, "Z", "Z");
    }
  }

  /** The texts SQLite stores are ordered as the instants are. */
  lemma {:induction false} StoredTextIsOrder(a: Instant, b: Instant)
    requires |a.second| == |b.second| && a.millis < 1000 && b.millis < 1000
    ensures LexLess(StoredText(a), StoredText(b)) <==> Before(a, b)
  {
    var x, y := Digits3(a.millis), Digits3(b.millis);
    Digits3Order(a.millis, b.millis);
    if a.second == b.second {
      LexTrichotomy(a.second, b.second);
      LexSharedPrefix(a.second, "." + x + "Z", "." + y + "Z");
      FractionOrder(x, y);
    } else {
      LexPrefixDecides(a.second, b.second, "." + x + "Z", "." + y + "Z");
    }
  }

  lemma {:induction false} SameFilter(p: Row -> bool, q: Row -> bool, rows: seq<Row>)
    requires forall r :: r in rows ==> p(r) == q(r)
    ensures S.Filter(p, rows) == S.Filter(q, rows)
    decreases |rows|
  {
    if |rows| > 0 {
      SameFilter(p, q, rows[..|rows| - 1]);
      assert rows[|rows| - 1] in rows;
    }
  }

  /** The two stores prune the same rows if and only if no row was resolved in
      the cutoff's own second at or after the cutoff. */
  lemma {:induction false} PruneAgreesIff(rows: seq<Row>, cutoff: Instant)
    requires forall r :: r in rows && r.resolvedAt.Some? ==> |r.resolvedAt.value.second| == |cutoff.second|
    ensures Pruned(rows, Sqlite, cutoff) == Pruned(rows, Postgres, cutoff)
       <==> forall r :: r in rows && r.resolvedAt.Some? && r.resolvedAt.value.second == cutoff.second ==>
         r.resolvedAt.value.millis < cutoff.millis
  {
    forall r | r in rows && r.resolvedAt.Some?
      ensures Expired(Sqlite, cutoff, r.resolvedAt.value)
         <==> (Expired(Postgres, cutoff, r.resolvedAt.value)
               || (r.resolvedAt.value.second == cutoff.second && r.resolvedAt.value.millis >= cutoff.millis))
      ensures Expired(Postgres, cutoff, r.resolvedAt.value) ==> Expired(Sqlite, cutoff, r.resolvedAt.value)
      ensures r.resolvedAt.value.second == cutoff.second && r.resolvedAt.value.millis >= cutoff.millis ==>
                !Expired(Postgres, cutoff, r.resolvedAt.value)
    {
      SqliteExpiresBySecond(cutoff, r.resolvedAt.value);
      LexTrichotomy(r.resolvedAt.value.second, cutoff.second);
    }
    if forall r :: r in rows ==> Survives(Sqlite, cutoff)(r) == Survives(Postgres, cutoff)(r) {
      SameFilter(Survives(Sqlite, cutoff), Survives(Postgres, cutoff), rows);
    }
    if Pruned(rows, Sqlite, cutoff) == Pruned(rows, Postgres, cutoff) {
      forall r | r in rows ensures Survives(Sqlite, cutoff)(r) == Survives(Postgres, cutoff)(r) {
        assert r in Pruned(rows, Sqlite, cutoff) <==> r in Pruned(rows, Postgres, cutoff);
      }
    }
  }
}

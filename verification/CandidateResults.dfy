/** Where the two candidate stores agree, and exactly where they do not. */
module CandidateResults {
  import opened Ids
  import opened CandidateTable
  import opened CandidateStores
  import opened Seqs

  /** Every row is read, and is a hit. */
  ghost predicate Clean(q: Query) {
    !q.fails && !q.iterFails && forall i :: 0 <= i < |q.fetches| ==> q.fetches[i].Hit?
  }

  lemma {:induction false} StreamedHits(d: Data, cfg: Config, fetches: seq<Fetch>)
    requires forall i :: 0 <= i < |fetches| ==> fetches[i].Hit?
    ensures Streamed(d, cfg, fetches) == DoUpserts(d, cfg, Hits(fetches))
    decreases |fetches|
  {
    if |fetches| > 0 {
      var init := fetches[..|fetches| - 1];
      StreamedHits(d, cfg, init);
      assert Hits(fetches)[..|Hits(init)|] == Hits(init);
    }
  }

  /** A query read without errors: same table, same clock and same failures give
      the same table and the same returned list in both loop shapes, repeated
      (task, reason) hits and failing upserts included. */
  lemma {:induction false} DetectorsAgree(d: Data, cfg: Config, q: Query)
    requires Clean(q)
    ensures DetectorResult(Sqlite, d, cfg, q) == DetectorResult(Postgres, d, cfg, q)
  {
    StreamedHits(d, cfg, q.fetches);
    assert ScanFails !in q.fetches;
  }

  lemma {:induction false} NextAgrees(sofar: (Data, Result<seq<Row>>), cfg: Config, q: Query)
    requires Clean(q)
    ensures Next(Sqlite, sofar, cfg, q) == Next(Postgres, sofar, cfg, q)
  {
    DetectorsAgree(sofar.0, cfg, q);
  }

  /** The whole detection agrees on clean queries; the stale window is the one
      parameter the stores read differently, past 1176 hours. */
  lemma {:induction false} StoresAgree(d: Data, cfg: Config, p: DetectParams, qs: Queries)
    requires p.staleHours <= 1176
    requires var days := LookbackDays(p.lookbackDays);
             Clean(qs.stale(StaleHours(Postgres, p.staleHours))) && Clean(qs.gap(days)) && Clean(qs.artifact(days))
               && Clean(qs.signal(days))
    ensures Detected(Sqlite, d, cfg, p, qs) == Detected(Postgres, d, cfg, p, qs)
  {
    var hours, days := StaleHours(Postgres, p.staleHours), LookbackDays(p.lookbackDays);
    var s1 := Next(Postgres, (d, Ok([])), cfg, qs.stale(hours));
    var s2 := Next(Postgres, s1, cfg, qs.gap(days));
    var s3 := Next(Postgres, s2, cfg, qs.artifact(days));
    NextAgrees((d, Ok([])), cfg, qs.stale(hours));
    NextAgrees(s1, cfg, qs.gap(days));
    NextAgrees(s2, cfg, qs.artifact(days));
    NextAgrees(s3, cfg, qs.signal(days));
  }

  function AsFetches(hits: seq<UpsertParams>): (r: seq<Fetch>)
    ensures |r| == |hits| && forall i :: 0 <= i < |r| ==> r[i] == Hit(hits[i])
  {
    seq(|hits|, i requires 0 <= i < |hits| => Hit(hits[i]))
  }

  lemma {:induction false} HitsOfFetches(hits: seq<UpsertParams>)
    ensures Hits(AsFetches(hits)) == hits
    decreases |hits|
  {
    if |hits| > 0 {
      var init := hits[..|hits| - 1];
      HitsOfFetches(init);
      assert AsFetches(hits)[..|hits| - 1] == AsFetches(init);
      assert hits == init + [hits[|hits| - 1]];
    }
  }

  /** A query that breaks after some hits: both stores report the error, SQLite
      with its table untouched, Postgres with those hits already written. */
  lemma {:induction false} BrokenQuery(d: Data, cfg: Config, hits: seq<UpsertParams>, atRow: bool)
    ensures var q := Query(false, AsFetches(hits) + (if atRow then [ScanFails] else []), !atRow);
            && DetectorResult(Sqlite, d, cfg, q) == (d, Err)
            && DetectorResult(Postgres, d, cfg, q) == (DoUpserts(d, cfg, hits).0, Err)
  {
    var fetches := AsFetches(hits);
    StreamedHits(d, cfg, fetches);
    HitsOfFetches(hits);
    if atRow {
      assert (fetches + [ScanFails])[..|fetches|] == fetches;
      assert (fetches + [ScanFails])[|fetches|] == ScanFails;
    } else {
      assert fetches + [] == fetches;
    }
  }

  /** The clock has moved on since every row was last detected. */
  ghost predicate ClockIsAhead(d: Data, cfg: Config) {
    forall i, n :: 0 <= i < |d.rows| && n >= d.statements ==> d.rows[i].detectedAt != cfg.clock(n)
  }

  predicate SomeDetectedAt(rows: seq<Row>, t: Instant) {
    exists k :: 0 <= k < |rows| && rows[k].detectedAt == t
  }

  lemma {:induction false} UpsertGoesThrough(d: Data, cfg: Config, p: UpsertParams)
    requires ValidParams(p) && !cfg.faults(d.statements)
    ensures DoUpsert(d, cfg, p).1.Ok?
    ensures DoUpsert(d, cfg, p).0.statements == d.statements + 1
    ensures SomeDetectedAt(DoUpsert(d, cfg, p).0.rows, cfg.clock(d.statements))
  {
    UpsertedHasRow(d.rows, cfg.ws, p, cfg.clock(d.statements));
  }

  lemma {:induction false} UpsertsSucceed(d: Data, cfg: Config, hits: seq<UpsertParams>)
    requires forall n :: n >= d.statements ==> !cfg.faults(n)
    requires forall i :: 0 <= i < |hits| ==> ValidParams(hits[i])
    ensures DoUpserts(d, cfg, hits).1.Ok?
    ensures DoUpserts(d, cfg, hits).0.statements == d.statements + |hits|
    decreases |hits|
  {
    if |hits| > 0 {
      var init := hits[..|hits| - 1];
      UpsertsSucceed(d, cfg, init);
      UpsertGoesThrough(DoUpserts(d, cfg, init).0, cfg, hits[|hits| - 1]);
    }
  }

  /** The upserts of `hits` left a row detected at the clock's `n`-th reading. */
  predicate Wrote(d: Data, cfg: Config, hits: seq<UpsertParams>, n: nat) {
    SomeDetectedAt(DoUpserts(d, cfg, hits).0.rows, cfg.clock(n))
  }

  lemma {:induction false} LastGoesThrough(d: Data, cfg: Config, hits: seq<UpsertParams>)
    requires |hits| > 0 && ValidParams(hits[|hits| - 1])
    requires var (e, r) := DoUpserts(d, cfg, hits[..|hits| - 1]); r.Ok? && !cfg.faults(e.statements)
    ensures Wrote(d, cfg, hits, DoUpserts(d, cfg, hits[..|hits| - 1]).0.statements)
  {
    UpsertGoesThrough(DoUpserts(d, cfg, hits[..|hits| - 1]).0, cfg, hits[|hits| - 1]);
  }

  /** All of them go through: the table holds the instant of the last one. */
  lemma {:induction false} UpsertsGoThrough(d: Data, cfg: Config, hits: seq<UpsertParams>) returns (n: nat)
    requires |hits| > 0
    requires forall n :: n >= d.statements ==> !cfg.faults(n)
    requires forall i :: 0 <= i < |hits| ==> ValidParams(hits[i])
    ensures n == d.statements + |hits| - 1 && Wrote(d, cfg, hits, n)
  {
    n := DoUpserts(d, cfg, hits[..|hits| - 1]).0.statements;
    UpsertsSucceed(d, cfg, hits[..|hits| - 1]);
    LastGoesThrough(d, cfg, hits);
  }

  /** So on a broken query the tables agree if and only if it broke before its
      first hit. */
  lemma {:induction false} BrokenAgreesIff(d: Data, cfg: Config, hits: seq<UpsertParams>, atRow: bool)
    requires ClockIsAhead(d, cfg)
    requires forall n :: n >= d.statements ==> !cfg.faults(n)
    requires forall i :: 0 <= i < |hits| ==> ValidParams(hits[i])
    ensures var q := Query(false, AsFetches(hits) + (if atRow then [ScanFails] else []), !atRow);
            DetectorResult(Sqlite, d, cfg, q).0.rows == DetectorResult(Postgres, d, cfg, q).0.rows <==> hits == []
  {
    BrokenQuery(d, cfg, hits, atRow);
    if |hits| > 0 { var n := UpsertsGoThrough(d, cfg, hits); }
  }

  // ----- the stale windows -----

  /** A task in progress, and the seconds since it was last updated. */
  datatype StaleTask = StaleTask(p: UpsertParams, age: int)

  /** What the first rule finds: `updated_at` before `hours` hours ago. */
  function StaleHits(tasks: seq<StaleTask>, hours: int): seq<UpsertParams> {
    if |tasks| == 0 then []
    else
      StaleHits(tasks[..|tasks| - 1], hours)
      + (if tasks[|tasks| - 1].age > 3600 * hours then [tasks[|tasks| - 1].p] else [])
  }

  /** Stale for the capped window of SQLite only. */
  predicate OnlySqliteSees(t: StaleTask, hours: int) {
    3600 * StaleHours(Sqlite, hours) < t.age <= 3600 * StaleHours(Postgres, hours)
  }

  lemma {:induction false} StaleHitsValid(tasks: seq<StaleTask>, hours: int)
    requires forall i :: 0 <= i < |tasks| ==> ValidParams(tasks[i].p)
    ensures forall p :: p in StaleHits(tasks, hours) ==> ValidParams(p)
    decreases |tasks|
  {
    if |tasks| > 0 { StaleHitsValid(tasks[..|tasks| - 1], hours); }
  }

  /** The windows find the same exactly when no task lies between them. */
  lemma {:induction false} StaleHitsDiffer(tasks: seq<StaleTask>, hours: int)
    ensures var lite, pg := StaleHits(tasks, StaleHours(Sqlite, hours)), StaleHits(tasks, StaleHours(Postgres, hours));
            && |pg| <= |lite|
            && (|pg| == |lite| ==> pg == lite)
            && (|pg| == |lite| <==> forall i :: 0 <= i < |tasks| ==> !OnlySqliteSees(tasks[i], hours))
    decreases |tasks|
  {
    if |tasks| > 0 {
      var init := tasks[..|tasks| - 1];
      StaleHitsDiffer(init, hours);
      assert forall i :: 0 <= i < |init| ==> init[i] == tasks[i];
    }
  }

  lemma {:induction false} UpsertsConcat(d: Data, cfg: Config, a: seq<UpsertParams>, b: seq<UpsertParams>)
    requires DoUpserts(d, cfg, a).1.Ok?
    ensures DoUpserts(d, cfg, a + b).0 == DoUpserts(DoUpserts(d, cfg, a).0, cfg, b).0
    ensures DoUpserts(d, cfg, a + b).1.Ok? <==> DoUpserts(DoUpserts(d, cfg, a).0, cfg, b).1.Ok?
    decreases |b|
  {
    if |b| == 0 {
      assert a + b == a;
    } else {
      assert (a + b)[..|a + b| - 1] == a + b[..|b| - 1];
      UpsertsConcat(d, cfg, a, b[..|b| - 1]);
    }
  }

  /** Every statement from this reading of the clock on goes through. */
  ghost predicate Works(cfg: Config, from: nat) {
    forall n :: n >= from ==> !cfg.faults(n)
  }

  ghost predicate AllValid(hits: seq<UpsertParams>) {
    forall i :: 0 <= i < |hits| ==> ValidParams(hits[i])
  }

  /** What the three later rules find. */
  function LaterHits(p: DetectParams, qs: Queries): seq<UpsertParams> {
    var days := LookbackDays(p.lookbackDays);
    Hits(qs.gap(days).fetches) + Hits(qs.artifact(days).fetches) + Hits(qs.signal(days).fetches)
  }

  /** Queries that are read without errors and find what can be stored. */
  ghost predicate Readable(q: Query) {
    Clean(q) && AllValid(Hits(q.fetches))
  }

  lemma {:induction false} TwoMore(d: Data, cfg: Config, a: seq<UpsertParams>, b: seq<UpsertParams>)
    requires Works(cfg, d.statements) && AllValid(a) && AllValid(b)
    ensures DoUpserts(d, cfg, a + b).0 == DoUpserts(DoUpserts(d, cfg, a).0, cfg, b).0
    ensures d.statements <= DoUpserts(d, cfg, a).0.statements
  {
    UpsertsSucceed(d, cfg, a);
    UpsertsConcat(d, cfg, a, b);
  }

  lemma ValidConcat(a: seq<UpsertParams>, b: seq<UpsertParams>)
    requires AllValid(a) && AllValid(b)
    ensures AllValid(a + b)
  {
  }

  lemma {:induction false} ThreeInARow(d: Data, cfg: Config, a: seq<UpsertParams>, b: seq<UpsertParams>,
                                       c: seq<UpsertParams>)
    requires Works(cfg, d.statements) && AllValid(a) && AllValid(b) && AllValid(c)
    ensures DoUpserts(DoUpserts(DoUpserts(d, cfg, a).0, cfg, b).0, cfg, c).0 == DoUpserts(d, cfg, a + b + c).0
  {
    TwoMore(d, cfg, a, b);
    ValidConcat(a, b);
    TwoMore(d, cfg, a + b, c);
  }

  /** A rule that works upserts what it finds, and the next one can work too. */
  lemma {:induction false} RuleUpserts(dialect: Dialect, sofar: (Data, Result<seq<Row>>), cfg: Config, q: Query)
    requires Readable(q) && sofar.1.Ok? && Works(cfg, sofar.0.statements)
    ensures var r := Next(dialect, sofar, cfg, q);
            r.0 == DoUpserts(sofar.0, cfg, Hits(q.fetches)).0 && r.1.Ok? && Works(cfg, r.0.statements)
  {
    UpsertsSucceed(sofar.0, cfg, Hits(q.fetches));
    StreamedHits(sofar.0, cfg, q.fetches);
    assert ScanFails !in q.fetches;
  }

  /** A detection that works upserts what its rules find, one rule after the other. */
  lemma {:induction false} DetectedUpserts(dialect: Dialect, d: Data, cfg: Config, p: DetectParams, qs: Queries)
    requires Works(cfg, d.statements)
    requires var days := LookbackDays(p.lookbackDays);
             && Readable(qs.stale(StaleHours(dialect, p.staleHours))) && Readable(qs.gap(days))
             && Readable(qs.artifact(days)) && Readable(qs.signal(days))
    ensures Detected(dialect, d, cfg, p, qs).0 ==
            DoUpserts(d, cfg, Hits(qs.stale(StaleHours(dialect, p.staleHours)).fetches) + LaterHits(p, qs)).0
  {
    var days := LookbackDays(p.lookbackDays);
    var q1, q2, q3, q4 := qs.stale(StaleHours(dialect, p.staleHours)), qs.gap(days), qs.artifact(days), qs.signal(days);
    var s1 := Next(dialect, (d, Ok([])), cfg, q1);
    var s2 := Next(dialect, s1, cfg, q2);
    var s3 := Next(dialect, s2, cfg, q3);
    RuleUpserts(dialect, (d, Ok([])), cfg, q1);
    RuleUpserts(dialect, s1, cfg, q2);
    RuleUpserts(dialect, s2, cfg, q3);
    RuleUpserts(dialect, s3, cfg, q4);
    ThreeInARow(s1.0, cfg, Hits(q2.fetches), Hits(q3.fetches), Hits(q4.fetches));
    ValidConcat(Hits(q2.fetches), Hits(q3.fetches));
    ValidConcat(Hits(q2.fetches) + Hits(q3.fetches), Hits(q4.fetches));
    TwoMore(d, cfg, Hits(q1.fetches), LaterHits(p, qs));
  }

  lemma NotYetByOne(d: Data, cfg: Config, p: UpsertParams, t: Instant)
    requires !SomeDetectedAt(d.rows, t)
    requires DoUpsert(d, cfg, p).0.statements > d.statements ==> cfg.clock(d.statements) != t
    ensures !SomeDetectedAt(DoUpsert(d, cfg, p).0.rows, t) && d.statements <= DoUpsert(d, cfg, p).0.statements
  {
    var rows := DoUpsert(d, cfg, p).0.rows;
    forall k | 0 <= k < |rows| ensures rows[k].detectedAt != t {
      assert k < |d.rows| ==> d.rows[k].detectedAt != t;
    }
  }

  /** An instant no row carries and the clock has not read yet is not in the table. */
  lemma {:induction false} NotYet(d: Data, cfg: Config, hits: seq<UpsertParams>, t: Instant)
    requires !SomeDetectedAt(d.rows, t)
    requires forall n :: d.statements <= n < DoUpserts(d, cfg, hits).0.statements ==> cfg.clock(n) != t
    ensures !SomeDetectedAt(DoUpserts(d, cfg, hits).0.rows, t)
    ensures d.statements <= DoUpserts(d, cfg, hits).0.statements
    decreases |hits|
  {
    if |hits| > 0 {
      var e := DoUpserts(d, cfg, hits[..|hits| - 1]).0;
      NotYet(d, cfg, hits[..|hits| - 1], t);
      if DoUpserts(d, cfg, hits[..|hits| - 1]).1.Ok? { NotYetByOne(e, cfg, hits[|hits| - 1], t); }
    }
  }

  ghost predicate NeverRepeats(cfg: Config) {
    forall m, n :: 0 <= m < n ==> cfg.clock(m) != cfg.clock(n)
  }

  /** Two lists of upserts leave different tables when one is longer. */
  lemma {:induction false} LongerDiffers(d: Data, cfg: Config, some: seq<UpsertParams>, more: seq<UpsertParams>)
    requires |some| < |more| && AllValid(some) && AllValid(more)
    requires ClockIsAhead(d, cfg) && Works(cfg, d.statements) && NeverRepeats(cfg)
    ensures DoUpserts(d, cfg, some).0.rows != DoUpserts(d, cfg, more).0.rows
  {
    var n := UpsertsGoThrough(d, cfg, more);
    UpsertsSucceed(d, cfg, some);
    assert !SomeDetectedAt(d.rows, cfg.clock(n));
    NotYet(d, cfg, some, cfg.clock(n));
  }

  function StaleQuery(tasks: seq<StaleTask>, hours: int): Query {
    Query(false, AsFetches(StaleHits(tasks, hours)), false)
  }

  lemma {:induction false} StaleIsReadable(tasks: seq<StaleTask>, hours: int)
    requires forall i :: 0 <= i < |tasks| ==> ValidParams(tasks[i].p)
    ensures Readable(StaleQuery(tasks, hours)) && Hits(StaleQuery(tasks, hours).fetches) == StaleHits(tasks, hours)
    ensures AllValid(StaleHits(tasks, hours))
  {
    StaleHitsValid(tasks, hours);
    HitsOfFetches(StaleHits(tasks, hours));
  }

  lemma LaterIsValid(p: DetectParams, qs: Queries)
    requires var days := LookbackDays(p.lookbackDays);
             Readable(qs.gap(days)) && Readable(qs.artifact(days)) && Readable(qs.signal(days))
    ensures AllValid(LaterHits(p, qs))
  {
    var days := LookbackDays(p.lookbackDays);
    ValidConcat(Hits(qs.gap(days).fetches), Hits(qs.artifact(days).fetches));
    ValidConcat(Hits(qs.gap(days).fetches) + Hits(qs.artifact(days).fetches), Hits(qs.signal(days).fetches));
  }

  /** On one table of tasks the two stores' detections leave the same candidates
      if and only if no task was last updated between the two stale windows: past
      1176 hours, but not past the hours asked for. */
  lemma {:induction false} DetectionsAgreeIff(d: Data, cfg: Config, p: DetectParams, tasks: seq<StaleTask>, qs: Queries)
    requires ClockIsAhead(d, cfg) && Works(cfg, d.statements) && NeverRepeats(cfg)
    requires forall i :: 0 <= i < |tasks| ==> ValidParams(tasks[i].p)
    requires forall hours :: qs.stale(hours) == StaleQuery(tasks, hours)
    requires var days := LookbackDays(p.lookbackDays);
             Readable(qs.gap(days)) && Readable(qs.artifact(days)) && Readable(qs.signal(days))
    ensures Detected(Sqlite, d, cfg, p, qs).0.rows == Detected(Postgres, d, cfg, p, qs).0.rows
       <==> forall i :: 0 <= i < |tasks| ==> !(3600 * 1176 < tasks[i].age <= 3600 * p.staleHours)
  {
    var lite := StaleHits(tasks, StaleHours(Sqlite, p.staleHours));
    var pg := StaleHits(tasks, StaleHours(Postgres, p.staleHours));
    StaleIsReadable(tasks, StaleHours(Sqlite, p.staleHours));
    StaleIsReadable(tasks, StaleHours(Postgres, p.staleHours));
    DetectedUpserts(Sqlite, d, cfg, p, qs);
    DetectedUpserts(Postgres, d, cfg, p, qs);
    StaleHitsDiffer(tasks, p.staleHours);
    LaterIsValid(p, qs);
    if |pg| < |lite| {
      ValidConcat(pg, LaterHits(p, qs));
      ValidConcat(lite, LaterHits(p, qs));
      LongerDiffers(d, cfg, pg + LaterHits(p, qs), lite + LaterHits(p, qs));
    }
  }

  lemma {:induction false} UpsertsKeepInv(d: Data, cfg: Config, hits: seq<UpsertParams>)
    requires Inv(d.rows)
    ensures Inv(DoUpserts(d, cfg, hits).0.rows)
    decreases |hits|
  {
    if |hits| > 0 {
      var init, p := hits[..|hits| - 1], hits[|hits| - 1];
      UpsertsKeepInv(d, cfg, init);
      var e := DoUpserts(d, cfg, init).0;
      if ValidParams(p) { UpsertKeepsInv(e.rows, cfg.ws, p, cfg.clock(e.statements)); }
    }
  }

  lemma {:induction false} StreamKeepsInv(d: Data, cfg: Config, fetches: seq<Fetch>)
    requires Inv(d.rows)
    ensures Inv(Streamed(d, cfg, fetches).0.rows)
    decreases |fetches|
  {
    if |fetches| > 0 {
      var init, last := fetches[..|fetches| - 1], fetches[|fetches| - 1];
      StreamKeepsInv(d, cfg, init);
      var e := Streamed(d, cfg, init).0;
      if last.Hit? && ValidParams(last.p) { UpsertKeepsInv(e.rows, cfg.ws, last.p, cfg.clock(e.statements)); }
    }
  }

  /** `a` grew into `b`: no row lost, none changed in key, status or resolution,
      and no artifact lost. */
  ghost predicate Grew(a: seq<Row>, b: seq<Row>) {
    && |a| <= |b|
    && forall i :: 0 <= i < |a| ==>
         && b[i].task == a[i].task && b[i].reason == a[i].reason
         && b[i].status == a[i].status && b[i].resolvedAt == a[i].resolvedAt
         && (a[i].artifact.Some? ==> b[i].artifact.Some?)
  }

  lemma GrewTransitive(a: seq<Row>, b: seq<Row>, c: seq<Row>)
    requires Grew(a, b) && Grew(b, c)
    ensures Grew(a, c)
  {
  }

  lemma {:induction false} UpsertGrows(d: Data, cfg: Config, p: UpsertParams)
    ensures Grew(d.rows, DoUpsert(d, cfg, p).0.rows)
  {
  }

  lemma {:induction false} UpsertsGrow(d: Data, cfg: Config, hits: seq<UpsertParams>)
    ensures Grew(d.rows, DoUpserts(d, cfg, hits).0.rows)
    decreases |hits|
  {
    if |hits| > 0 {
      var init, p := hits[..|hits| - 1], hits[|hits| - 1];
      UpsertsGrow(d, cfg, init);
      var (e, r) := DoUpserts(d, cfg, init);
      UpsertGrows(e, cfg, p);
      GrewTransitive(d.rows, e.rows, DoUpsert(e, cfg, p).0.rows);
    }
  }

  lemma {:induction false} StreamGrows(d: Data, cfg: Config, fetches: seq<Fetch>)
    ensures Grew(d.rows, Streamed(d, cfg, fetches).0.rows)
    decreases |fetches|
  {
    if |fetches| > 0 {
      var init, last := fetches[..|fetches| - 1], fetches[|fetches| - 1];
      StreamGrows(d, cfg, init);
      var e := Streamed(d, cfg, init).0;
      if last.Hit? {
        UpsertGrows(e, cfg, last.p);
        GrewTransitive(d.rows, e.rows, DoUpsert(e, cfg, last.p).0.rows);
      }
    }
  }

  /** The `i`-th hit has its row: what was returned for it shows its columns and
      the clock's reading, and the table holds a row of its key. */
  ghost predicate Recorded(d: Data, cfg: Config, hits: seq<UpsertParams>, found: seq<Row>, rows: seq<Row>, i: nat)
    requires |found| == |hits| && i < |hits|
  {
    IsFor(found[i], hits[i]) && found[i].detectedAt == cfg.clock(d.statements + i)
    && Lives(rows, hits[i].task, hits[i].reason)
  }

  ghost predicate AllRecorded(d: Data, cfg: Config, hits: seq<UpsertParams>, found: seq<Row>, after: Data) {
    && |found| == |hits| && after.statements == d.statements + |hits|
    && forall i :: 0 <= i < |hits| ==> Recorded(d, cfg, hits, found, after.rows, i)
  }

  lemma GrewKeepsKey(a: seq<Row>, b: seq<Row>, task: Uuid, reason: Reason)
    requires Grew(a, b) && Lives(a, task, reason)
    ensures Lives(b, task, reason)
  {
    var r :| r in a && HasKey(r, task, reason);
    var k :| 0 <= k < |a| && a[k] == r;
    assert b[k] in b && HasKey(b[k], task, reason);
  }

  lemma {:induction false} UpsertReturns(d: Data, cfg: Config, p: UpsertParams)
    requires DoUpsert(d, cfg, p).1.Ok?
    ensures var (e, r) := DoUpsert(d, cfg, p);
            && IsFor(r.value, p) && r.value.detectedAt == cfg.clock(d.statements)
            && Lives(e.rows, p.task, p.reason) && e.statements == d.statements + 1
  {
    UpsertedHasRow(d.rows, cfg.ws, p, cfg.clock(d.statements));
  }

  lemma {:induction false} OneMoreRecorded(d: Data, cfg: Config, hits: seq<UpsertParams>, some: seq<Row>, e: Data,
                                           last: Row, after: Data)
    requires |hits| > 0 && AllRecorded(d, cfg, hits[..|hits| - 1], some, e) && Grew(e.rows, after.rows)
    requires IsFor(last, hits[|hits| - 1]) && last.detectedAt == cfg.clock(e.statements)
    requires Lives(after.rows, hits[|hits| - 1].task, hits[|hits| - 1].reason) && after.statements == e.statements + 1
    ensures AllRecorded(d, cfg, hits, some + [last], after)
  {
    var init, found := hits[..|hits| - 1], some + [last];
    forall i | 0 <= i < |hits| ensures Recorded(d, cfg, hits, found, after.rows, i) {
      if i < |init| {
        assert Recorded(d, cfg, init, some, e.rows, i) && hits[i] == init[i] && found[i] == some[i];
        GrewKeepsKey(e.rows, after.rows, hits[i].task, hits[i].reason);
      }
    }
  }

  lemma {:induction false} UpsertsReturn(d: Data, cfg: Config, hits: seq<UpsertParams>)
    requires DoUpserts(d, cfg, hits).1.Ok?
    ensures AllRecorded(d, cfg, hits, DoUpserts(d, cfg, hits).1.value, DoUpserts(d, cfg, hits).0)
    decreases |hits|
  {
    if |hits| > 0 {
      var init, p := hits[..|hits| - 1], hits[|hits| - 1];
      UpsertsReturn(d, cfg, init);
      var (e, some) := DoUpserts(d, cfg, init);
      var (after, last) := DoUpsert(e, cfg, p);
      UpsertReturns(e, cfg, p);
      UpsertGrows(e, cfg, p);
      OneMoreRecorded(d, cfg, hits, some.value, e, last.value, after);
    }
  }

  lemma {:induction false} StreamedOk(d: Data, cfg: Config, fetches: seq<Fetch>)
    requires Streamed(d, cfg, fetches).1.Ok?
    ensures forall i :: 0 <= i < |fetches| ==> fetches[i].Hit?
    decreases |fetches|
  {
    if |fetches| > 0 {
      StreamedOk(d, cfg, fetches[..|fetches| - 1]);
      forall i | 0 <= i < |fetches| ensures fetches[i].Hit? {
        if i < |fetches| - 1 { assert fetches[i] == fetches[..|fetches| - 1][i]; }
      }
    }
  }

  /** A detector that ends well has upserted its hits. */
  lemma {:induction false} DetectorOk(dialect: Dialect, d: Data, cfg: Config, q: Query)
    requires DetectorResult(dialect, d, cfg, q).1.Ok?
    ensures DetectorResult(dialect, d, cfg, q) == DoUpserts(d, cfg, Hits(q.fetches))
  {
    if dialect == Postgres {
      StreamedOk(d, cfg, q.fetches);
      StreamedHits(d, cfg, q.fetches);
    }
  }

  lemma {:induction false} UpsertsJoin(d: Data, cfg: Config, a: seq<UpsertParams>, b: seq<UpsertParams>)
    requires DoUpserts(d, cfg, a).1.Ok? && DoUpserts(DoUpserts(d, cfg, a).0, cfg, b).1.Ok?
    ensures var (e, r1) := DoUpserts(d, cfg, a);
            var (f, r2) := DoUpserts(e, cfg, b);
            DoUpserts(d, cfg, a + b) == (f, Ok(r1.value + r2.value))
    decreases |b|
  {
    if |b| == 0 {
      assert a + b == a;
      var (e, r1) := DoUpserts(d, cfg, a);
      assert r1.value + [] == r1.value;
    } else {
      var init := b[..|b| - 1];
      InitOfConcat(a, b);
      UpsertsJoin(d, cfg, a, init);
      var (e, r1) := DoUpserts(d, cfg, a);
      var (g, r2) := DoUpserts(e, cfg, init);
      var (f, r3) := DoUpsert(g, cfg, b[|b| - 1]);
      Associative(r1.value, r2.value, [r3.value]);
    }
  }

  lemma {:induction false} NextOk(dialect: Dialect, d: Data, cfg: Config, hits: seq<UpsertParams>, q: Query)
    requires Next(dialect, DoUpserts(d, cfg, hits), cfg, q).1.Ok?
    ensures Next(dialect, DoUpserts(d, cfg, hits), cfg, q) == DoUpserts(d, cfg, hits + Hits(q.fetches))
  {
    var (e, r) := DoUpserts(d, cfg, hits);
    DetectorOk(dialect, e, cfg, q);
    UpsertsJoin(d, cfg, hits, Hits(q.fetches));
  }

  /** What the four rules look at, in order: the stale window is a day unless it
      is given, and SQLite caps it; the look-back is a week unless it is given,
      and at most thirty days. */
  ghost function AllHits(dialect: Dialect, p: DetectParams, qs: Queries): seq<UpsertParams> {
    var hours := if p.staleHours <= 0 then 24
                 else if dialect == Sqlite && p.staleHours > 1176 then 1176 else p.staleHours;
    var days := if p.lookbackDays <= 0 then 7 else if p.lookbackDays <= 30 then p.lookbackDays else 30;
    Hits(qs.stale(hours).fetches) + Hits(qs.gap(days).fetches) + Hits(qs.artifact(days).fetches)
    + Hits(qs.signal(days).fetches)
  }

  /** A detection that ends well has recorded every hit of the four rules, and
      returns their rows in order. */
  lemma {:induction false} DetectionRecords(dialect: Dialect, d: Data, cfg: Config, p: DetectParams, qs: Queries)
    requires Detected(dialect, d, cfg, p, qs).1.Ok?
    ensures var (after, found) := Detected(dialect, d, cfg, p, qs);
            AllRecorded(d, cfg, AllHits(dialect, p, qs), found.value, after)
  {
    var hours, days := StaleHours(dialect, p.staleHours), LookbackDays(p.lookbackDays);
    var a, b := Hits(qs.stale(hours).fetches), Hits(qs.gap(days).fetches);
    var c, e := Hits(qs.artifact(days).fetches), Hits(qs.signal(days).fetches);
    assert DoUpserts(d, cfg, []) == (d, Ok([])) && [] + a == a;
    NextOk(dialect, d, cfg, [], qs.stale(hours));
    NextOk(dialect, d, cfg, a, qs.gap(days));
    NextOk(dialect, d, cfg, a + b, qs.artifact(days));
    NextOk(dialect, d, cfg, a + b + c, qs.signal(days));
    UpsertsReturn(d, cfg, AllHits(dialect, p, qs));
  }

  lemma {:induction false} RuleKeepsTable(dialect: Dialect, sofar: (Data, Result<seq<Row>>), cfg: Config, q: Query)
    requires Inv(sofar.0.rows)
    ensures Inv(Next(dialect, sofar, cfg, q).0.rows)
    ensures Grew(sofar.0.rows, Next(dialect, sofar, cfg, q).0.rows)
  {
    var d := sofar.0;
    if dialect == Sqlite {
      UpsertsKeepInv(d, cfg, Hits(q.fetches));
      UpsertsGrow(d, cfg, Hits(q.fetches));
    } else {
      StreamKeepsInv(d, cfg, q.fetches);
      StreamGrows(d, cfg, q.fetches);
    }
  }

  /** However a detection ends, with either store and whatever fails on the way,
      the table's invariant holds, no status or resolution has changed and no
      row or artifact is lost. */
  lemma {:induction false} DetectionKeepsTable(dialect: Dialect, d: Data, cfg: Config, p: DetectParams, qs: Queries)
    requires Inv(d.rows)
    ensures Inv(Detected(dialect, d, cfg, p, qs).0.rows)
    ensures Grew(d.rows, Detected(dialect, d, cfg, p, qs).0.rows)
  {
    var hours, days := StaleHours(dialect, p.staleHours), LookbackDays(p.lookbackDays);
    var s0 := (d, Ok([]));
    var s1 := Next(dialect, s0, cfg, qs.stale(hours));
    var s2 := Next(dialect, s1, cfg, qs.gap(days));
    var s3 := Next(dialect, s2, cfg, qs.artifact(days));
    var s4 := Next(dialect, s3, cfg, qs.signal(days));
    RuleKeepsTable(dialect, s0, cfg, qs.stale(hours));
    RuleKeepsTable(dialect, s1, cfg, qs.gap(days));
    RuleKeepsTable(dialect, s2, cfg, qs.artifact(days));
    RuleKeepsTable(dialect, s3, cfg, qs.signal(days));
    GrewTransitive(d.rows, s1.0.rows, s2.0.rows);
    GrewTransitive(d.rows, s2.0.rows, s3.0.rows);
    GrewTransitive(d.rows, s3.0.rows, s4.0.rows);
  }

  // ----- whole histories of the table -----

  /** What may happen to the table: one statement, or a detection by either
      store, starting at some reading of its clock. */
  datatype Act =
    | Statement(op: Op)
    | Detection(dialect: Dialect, cfg: Config, p: DetectParams, qs: Queries, reading: nat)

  function Do(rows: seq<Row>, ws: Option<Uuid>, act: Act): seq<Row> {
    match act
    case Statement(op) => Apply(rows, ws, op)
    case Detection(dialect, cfg, p, qs, reading) => Detected(dialect, Data(rows, reading), cfg, p, qs).0.rows
  }

  function Run(rows: seq<Row>, ws: Option<Uuid>, acts: seq<Act>): seq<Row> {
    if |acts| == 0 then rows else Do(Run(rows, ws, acts[..|acts| - 1]), ws, acts[|acts| - 1])
  }

  lemma {:induction false} DoKeepsInv(rows: seq<Row>, ws: Option<Uuid>, act: Act)
    requires Inv(rows)
    ensures Inv(Do(rows, ws, act))
  {
    match act
    case Statement(op) => ApplyKeepsInv(rows, ws, op);
    case Detection(dialect, cfg, p, qs, reading) => DetectionKeepsTable(dialect, Data(rows, reading), cfg, p, qs);
  }

  /** Every table reached by any sequence of upserts, automatic completions,
      prunes and detections, failing ones included, has unique keys and is
      pending exactly where unresolved. */
  lemma {:induction false} RunKeepsInv(rows: seq<Row>, ws: Option<Uuid>, acts: seq<Act>)
    requires Inv(rows)
    ensures Inv(Run(rows, ws, acts))
    decreases |acts|
  {
    if |acts| > 0 {
      RunKeepsInv(rows, ws, acts[..|acts| - 1]);
      DoKeepsInv(Run(rows, ws, acts[..|acts| - 1]), ws, acts[|acts| - 1]);
    }
  }

  lemma {:induction false} GrewKeepsArtifact(a: seq<Row>, b: seq<Row>, task: Uuid, reason: Reason)
    requires Grew(a, b) && ArtifactKnown(a, task, reason)
    ensures ArtifactKnown(b, task, reason)
  {
    var r :| r in a && HasKey(r, task, reason) && r.artifact.Some?;
    var k :| 0 <= k < |a| && a[k] == r;
    assert b[k] in b;
  }

  lemma {:induction false} DoKeepsArtifact(rows: seq<Row>, ws: Option<Uuid>, act: Act, task: Uuid, reason: Reason)
    requires Inv(rows) && ArtifactKnown(rows, task, reason) && Lives(Do(rows, ws, act), task, reason)
    ensures ArtifactKnown(Do(rows, ws, act), task, reason)
  {
    match act
    case Statement(op) => OneStepKeepsArtifact(rows, ws, op, task, reason);
    case Detection(dialect, cfg, p, qs, reading) =>
      DetectionKeepsTable(dialect, Data(rows, reading), cfg, p, qs);
      GrewKeepsArtifact(rows, Do(rows, ws, act), task, reason);
  }

  /** Once known, a suggested artifact is never lost as long as the row lives. */
  lemma {:induction false} ArtifactNeverLost(rows: seq<Row>, ws: Option<Uuid>, acts: seq<Act>, task: Uuid,
                                             reason: Reason)
    requires Inv(rows) && ArtifactKnown(rows, task, reason)
    requires forall n :: 0 <= n <= |acts| ==> Lives(Run(rows, ws, acts[..n]), task, reason)
    ensures ArtifactKnown(Run(rows, ws, acts), task, reason)
    decreases |acts|
  {
    if |acts| > 0 {
      var init := acts[..|acts| - 1];
      forall n | 0 <= n <= |init| ensures Lives(Run(rows, ws, init[..n]), task, reason) {
        assert init[..n] == acts[..n];
      }
      ArtifactNeverLost(rows, ws, init, task, reason);
      RunKeepsInv(rows, ws, init);
      assert acts[..|acts|] == acts;
      DoKeepsArtifact(Run(rows, ws, init), ws, acts[|acts| - 1], task, reason);
    }
  }
}

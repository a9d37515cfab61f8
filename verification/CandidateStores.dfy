/** The detectors in their two loop shapes: SQLite drains a query and then
    upserts, Postgres upserts while it iterates. */
module CandidateStores {
  import opened Ids
  import opened CandidateTable
  import opened Seqs

  datatype Result<T> = Ok(value: T) | Err

  /** One fetched row, already turned into upsert parameters. Only SQLite ids,
      which are text, can fail to parse. */
  datatype Fetch = Hit(p: UpsertParams) | BadId | ScanFails

  /** A detection query: it can fail outright, and iterating it can fail at the end. */
  datatype Query = Query(fails: bool, fetches: seq<Fetch>, iterFails: bool)

  /** The store's workspace, and the clock and failures its statements meet. */
  datatype Config = Config(ws: Option<Uuid>, clock: nat -> Instant, faults: nat -> bool)

  /** The table and the number of upsert statements issued so far. */
  datatype Data = Data(rows: seq<Row>, statements: nat)

  function DoUpsert(d: Data, cfg: Config, p: UpsertParams): (Data, Result<Row>) {
    if !ValidParams(p) then (d, Err)
    else if cfg.faults(d.statements) then (d.(statements := d.statements + 1), Err)
    else
      var rows := Upserted(d.rows, cfg.ws, p, cfg.clock(d.statements));
      var i := IndexOf(rows, p.task, p.reason);
      (Data(rows, d.statements + 1), if i < |rows| then Ok(rows[i]) else Err)
  }

  /** The upserts of a list of hits, stopping at the first failure. */
  function DoUpserts(d: Data, cfg: Config, hits: seq<UpsertParams>): (Data, Result<seq<Row>>) {
    if |hits| == 0 then (d, Ok([]))
    else
      var (d1, r1) := DoUpserts(d, cfg, hits[..|hits| - 1]);
      if r1.Err? then (d1, Err)
      else
        var (d2, r2) := DoUpsert(d1, cfg, hits[|hits| - 1]);
        (d2, if r2.Err? then Err else Ok(r1.value + [r2.value]))
  }

  function Hits(fetches: seq<Fetch>): seq<UpsertParams> {
    if |fetches| == 0 then []
    else Hits(fetches[..|fetches| - 1]) + (if fetches[|fetches| - 1].Hit? then [fetches[|fetches| - 1].p] else [])
  }

  /** SQLite: nothing is written unless the whole query was read. */
  function Drained(d: Data, cfg: Config, q: Query): (Data, Result<seq<Row>>) {
    if q.fails || ScanFails in q.fetches || q.iterFails then (d, Err) else DoUpserts(d, cfg, Hits(q.fetches))
  }

  function DoFetched(d: Data, cfg: Config, f: Fetch): (Data, Result<Row>) {
    if f.Hit? then DoUpsert(d, cfg, f.p) else (d, Err)
  }

  /** Postgres: every row is written as it is read. */
  function Streamed(d: Data, cfg: Config, fetches: seq<Fetch>): (Data, Result<seq<Row>>) {
    if |fetches| == 0 then (d, Ok([]))
    else
      var (d1, r1) := Streamed(d, cfg, fetches[..|fetches| - 1]);
      if r1.Err? then (d1, Err)
      else
        var (d2, r2) := DoFetched(d1, cfg, fetches[|fetches| - 1]);
        (d2, if r2.Err? then Err else Ok(r1.value + [r2.value]))
  }

  function Streaming(d: Data, cfg: Config, q: Query): (Data, Result<seq<Row>>) {
    if q.fails then (d, Err)
    else
      var (d', r) := Streamed(d, cfg, q.fetches);
      (d', if q.iterFails then Err else r)
  }

  function DetectorResult(dialect: Dialect, d: Data, cfg: Config, q: Query): (Data, Result<seq<Row>>) {
    match dialect
    case Sqlite => Drained(d, cfg, q)
    case Postgres => Streaming(d, cfg, q)
  }

  function StaleHours(dialect: Dialect, hours: int): int {
    var h := if hours <= 0 then 24 else hours;
    if dialect == Sqlite && h > 1176 then 1176 else h
  }

  function LookbackDays(days: int): int {
    if days <= 0 then 7 else if days > 30 then 30 else days
  }

  /** The four detection queries, by their windows. */
  datatype Queries = Queries(stale: int -> Query, gap: int -> Query, artifact: int -> Query, signal: int -> Query)

  datatype DetectParams = DetectParams(staleHours: int, lookbackDays: int)

  /** One more rule; a failed one ends the detection. */
  function Next(dialect: Dialect, sofar: (Data, Result<seq<Row>>), cfg: Config, q: Query): (Data, Result<seq<Row>>) {
    if sofar.1.Err? then sofar
    else
      var (d, r) := DetectorResult(dialect, sofar.0, cfg, q);
      (d, if r.Err? then Err else Ok(sofar.1.value + r.value))
  }

  /** The four rules in order. */
  function Detected(dialect: Dialect, d: Data, cfg: Config, p: DetectParams, qs: Queries): (Data, Result<seq<Row>>) {
    var hours, days := StaleHours(dialect, p.staleHours), LookbackDays(p.lookbackDays);
    var s1 := Next(dialect, (d, Ok([])), cfg, qs.stale(hours));
    var s2 := Next(dialect, s1, cfg, qs.gap(days));
    var s3 := Next(dialect, s2, cfg, qs.artifact(days));
    Next(dialect, s3, cfg, qs.signal(days))
  }

  lemma {:induction false} StaysFailed(d: Data, cfg: Config, hits: seq<UpsertParams>, n: nat)
    requires n <= |hits| && DoUpserts(d, cfg, hits[..n]).1.Err?
    ensures DoUpserts(d, cfg, hits) == DoUpserts(d, cfg, hits[..n])
    decreases |hits|
  {
    if n < |hits| {
      var init := hits[..|hits| - 1];
      assert init[..n] == hits[..n];
      StaysFailed(d, cfg, init, n);
    } else {
      assert hits[..n] == hits;
    }
  }

  lemma {:induction false} StaysBroken(d: Data, cfg: Config, fetches: seq<Fetch>, n: nat)
    requires n <= |fetches| && Streamed(d, cfg, fetches[..n]).1.Err?
    ensures Streamed(d, cfg, fetches) == Streamed(d, cfg, fetches[..n])
    decreases |fetches|
  {
    if n < |fetches| {
      var init := fetches[..|fetches| - 1];
      assert init[..n] == fetches[..n];
      StaysBroken(d, cfg, init, n);
    } else {
      assert fetches[..n] == fetches;
    }
  }

  /** One fetched row more. */
  lemma StreamedNext(d: Data, cfg: Config, fetches: seq<Fetch>, i: nat)
    requires i < |fetches| && Streamed(d, cfg, fetches[..i]).1.Ok?
    ensures var (d1, r1) := Streamed(d, cfg, fetches[..i]);
            var (d2, r2) := DoFetched(d1, cfg, fetches[i]);
            Streamed(d, cfg, fetches[..i + 1]) == (d2, if r2.Err? then Err else Ok(r1.value + [r2.value]))
  {
    TakeNext(fetches, i);
  }

  lemma StreamingDone(d: Data, cfg: Config, q: Query)
    requires !q.fails
    ensures var (d', r) := Streamed(d, cfg, q.fetches[..|q.fetches|]);
            Streaming(d, cfg, q) == (d', if q.iterFails then Err else r)
  {
    TakeAll(q.fetches);
  }

  class Store {
    const dialect: Dialect
    const cfg: Config
    var rows: seq<Row>
    var statements: nat
    /** SQLite's single connection is held by an open result set. */
    var busy: bool

    constructor (dialect: Dialect, cfg: Config, rows: seq<Row>)
      ensures this.dialect == dialect && this.cfg == cfg && this.rows == rows && statements == 0 && !busy
    {
      this.dialect, this.cfg, this.rows, statements, busy := dialect, cfg, rows, 0, false;
    }

    function Now(): Data
      reads this
    {
      Data(rows, statements)
    }

    /** Needs a connection: on SQLite nothing may be holding the only one. */
    method UpsertCandidate(p: UpsertParams) returns (r: Result<Row>)
      requires dialect == Sqlite ==> !busy
      modifies `rows, `statements
      ensures (Now(), r) == DoUpsert(old(Now()), cfg, p)
      ensures r.Err? <==>
                || p.task == NIL_UUID || p.reason.UnknownReason? || p.confidence.UnknownConfidence?
                || cfg.faults(old(statements))
      ensures r.Ok? ==> r.value in rows && IsFor(r.value, p) && r.value.detectedAt == cfg.clock(old(statements))
      ensures r.Err? ==> rows == old(rows)
    {
      UpsertedHasRow(rows, cfg.ws, p, cfg.clock(statements));
      if !ValidParams(p) {
        return Err;
      }
      var n := statements;
      statements := n + 1;
      if cfg.faults(n) {
        return Err;
      }
      rows := Upserted(rows, cfg.ws, p, cfg.clock(n));
      var i := IndexOf(rows, p.task, p.reason);
      if i == |rows| {
        return Err;
      }
      return Ok(rows[i]);
    }

    /** Reads the whole query into memory, and gives the connection back before
        anything is written. */
    method Drain(q: Query) returns (hits: Result<seq<UpsertParams>>)
      requires !busy
      modifies `busy
      ensures !busy
      ensures hits.Ok? <==> !(q.fails || ScanFails in q.fetches || q.iterFails)
      ensures hits.Ok? ==> hits.value == Hits(q.fetches)
    {
      if q.fails {
        return Err;
      }
      busy := true;
      var found: seq<UpsertParams> := [];
      var i := 0;
      while i < |q.fetches|
        invariant 0 <= i <= |q.fetches|
        invariant found == Hits(q.fetches[..i]) && ScanFails !in q.fetches[..i]
      {
        assert q.fetches[..i + 1][..i] == q.fetches[..i] && q.fetches[..i + 1] == q.fetches[..i] + [q.fetches[i]];
        match q.fetches[i] {
          case ScanFails =>
            busy := false;
            return Err;
          case BadId =>
          case Hit(p) => found := found + [p];
        }
        i := i + 1;
      }
      assert q.fetches[..i] == q.fetches;
      busy := false;
      if q.iterFails {
        return Err;
      }
      return Ok(found);
    }

    method DetectDrained(q: Query) returns (r: Result<seq<Row>>)
      requires !busy
      modifies this
      ensures !busy
      ensures (Now(), r) == Drained(old(Now()), cfg, q)
    {
      var hits := Drain(q);
      if hits.Err? {
        return Err;
      }
      var out: seq<Row> := [];
      var i := 0;
      while i < |hits.value|
        invariant 0 <= i <= |hits.value| && !busy
        invariant (Now(), Ok(out)) == DoUpserts(old(Now()), cfg, hits.value[..i])
      {
        TakeNext(hits.value, i);
        var c := UpsertCandidate(hits.value[i]);
        if c.Err? {
          StaysFailed(old(Now()), cfg, hits.value, i + 1);
          return Err;
        }
        out := out + [c.value];
        i := i + 1;
      }
      assert hits.value[..i] == hits.value;
      return Ok(out);
    }

    /** A row as it is read: written at once, or an error. */
    method WriteFetched(f: Fetch) returns (r: Result<Row>)
      requires dialect == Postgres
      modifies `rows, `statements
      ensures (Now(), r) == DoFetched(old(Now()), cfg, f)
    {
      if !f.Hit? {
        return Err;
      }
      r := UpsertCandidate(f.p);
    }

    method DetectStreaming(q: Query) returns (r: Result<seq<Row>>)
      requires dialect == Postgres && !busy
      modifies this
      ensures !busy
      ensures (Now(), r) == Streaming(old(Now()), cfg, q)
    {
      if q.fails {
        return Err;
      }
      busy := true;
      var out: seq<Row> := [];
      var i := 0;
      while i < |q.fetches|
        invariant 0 <= i <= |q.fetches|
        invariant (Now(), Ok(out)) == Streamed(old(Now()), cfg, q.fetches[..i])
      {
        StreamedNext(old(Now()), cfg, q.fetches, i);
        var c := WriteFetched(q.fetches[i]);
        if c.Err? {
          busy := false;
          StaysBroken(old(Now()), cfg, q.fetches, i + 1);
          return Err;
        }
        out := out + [c.value];
        i := i + 1;
      }
      StreamingDone(old(Now()), cfg, q);
      busy := false;
      if q.iterFails {
        return Err;
      }
      return Ok(out);
    }

    method Detect(q: Query) returns (r: Result<seq<Row>>)
      requires !busy
      modifies this
      ensures !busy
      ensures (Now(), r) == DetectorResult(dialect, old(Now()), cfg, q)
    {
      if dialect == Sqlite {
        r := DetectDrained(q);
      } else {
        r := DetectStreaming(q);
      }
    }

    method DetectRest(found: seq<Row>, q2: Query, q3: Query, q4: Query) returns (r: Result<seq<Row>>)
      requires !busy
      modifies this
      ensures !busy
      ensures (Now(), r) ==
                Next(dialect, Next(dialect, Next(dialect, (old(Now()), Ok(found)), cfg, q2), cfg, q3), cfg, q4)
    {
      var r2 := Detect(q2);
      if r2.Err? { return Err; }
      var r3 := Detect(q3);
      if r3.Err? { return Err; }
      var r4 := Detect(q4);
      if r4.Err? { return Err; }
      return Ok(found + r2.value + r3.value + r4.value);
    }

    /** Runs the four rules and collects what they upserted. */
    method DetectAndUpsert(p: DetectParams, qs: Queries) returns (r: Result<seq<Row>>)
      requires !busy
      modifies this
      ensures !busy
      ensures (Now(), r) == Detected(dialect, old(Now()), cfg, p, qs)
    {
      var hours, days := StaleHours(dialect, p.staleHours), LookbackDays(p.lookbackDays);
      ghost var start := (Now(), Ok([]));
      var r1 := Detect(qs.stale(hours));
      ghost var s1 := Next(dialect, start, cfg, qs.stale(hours));
      if r1.Err? { return Err; }
      assert s1 == (Now(), r1) by { assert [] + r1.value == r1.value; }
      r := DetectRest(r1.value, qs.gap(days), qs.artifact(days), qs.signal(days));
    }
  }
}

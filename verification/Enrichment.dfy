/** The network enrichment queue: durable rows claimed under leases, finished under guards. */
module Enrichment {
  import opened Options

  const MAX_ATTEMPTS := 5
  const LEASE_MILLIS := 90000
  const BACKOFF_MILLIS := 20000
  const SWEEP_LIMIT := 20
  const SEED_LIMIT := 100

  datatype RowState = Pending | Running | Complete | Failed

  /** What the engine answered for the content `raw`. */
  datatype Result = Result(raw: nat, body: nat)

  /** A web_network_enrichment row; token 0 is the empty token. */
  datatype Row = Row(state: RowState, attempts: nat, token: nat, leaseUntil: nat, nextAt: nat,
                     sourceHash: nat, version: nat, result: Option<Result>)

  /** What a row is joined with: the hash of its observation, whether observation, run and project
      are all live, and whether the observation is materialized. */
  datatype Source = Source(hash: nat, live: bool, materialized: bool)

  /** One claimed row in the hands of a worker; `raw` identifies the content it read. */
  datatype Work = Work(id: nat, version: nat, attempts: nat, token: nat, raw: nat)

  /** How EnrichWebNetwork ends for one piece of work. */
  datatype Outcome =
    | InvalidInput
    | Unavailable(permanent: bool)
    | DnsFailed(body: nat)
    | Answered(body: nat)

  datatype Db = Db(rows: map<nat, Row>, sources: map<nat, Source>, now: nat, nextToken: nat)

  predicate Joined(db: Db) {
    db.rows.Keys <= db.sources.Keys
  }

  // ------------------------------------------------------------- row guards

  /** The source disappeared or changed under an unfinished row. */
  predicate Invalidated(row: Row, source: Source) {
    (row.state == Pending || row.state == Running) && (!source.live || row.sourceHash != source.hash)
  }

  predicate Exhausted(row: Row, now: nat) {
    row.state == Running && row.leaseUntil < now && row.attempts >= MAX_ATTEMPTS
  }

  predicate Claimable(row: Row, source: Source, now: nat) {
    && ((row.state == Pending && row.nextAt <= now) || (row.state == Running && row.leaseUntil < now))
    && row.attempts < MAX_ATTEMPTS && source.live && source.materialized
  }

  /** The lease is the worker's and was unexpired when the worker read its clock. */
  predicate LeaseHeld(row: Row, w: Work, clock: nat) {
    row.state == Running && row.token == w.token && row.leaseUntil > clock
  }

  predicate Retryable(row: Row, source: Source) {
    && (row.state == Failed || (row.state == Complete && row.sourceHash != source.hash))
    && source.live && source.materialized
  }

  // ---------------------------------------------------- statements, as values

  function Invalidate(row: Row, source: Source): Row {
    if Invalidated(row, source) then row.(state := Failed, token := 0) else row
  }

  function Exhaust(row: Row, now: nat): Row {
    if Exhausted(row, now) then row.(state := Failed) else row
  }

  /** The two UPDATE statements that open a sweep. */
  function SweepFailures(db: Db): Db
    requires Joined(db)
  {
    db.(rows := map id | id in db.rows :: Exhaust(Invalidate(db.rows[id], db.sources[id]), db.now))
  }

  /** A possible answer of the SELECT ... LIMIT 20 FOR UPDATE SKIP LOCKED. */
  predicate SelectAnswer(db: Db, picked: seq<nat>)
    requires Joined(db)
  {
    && |picked| <= SWEEP_LIMIT
    && (forall i | 0 <= i < |picked| ::
          picked[i] in db.rows && Claimable(db.rows[picked[i]], db.sources[picked[i]], db.now))
    && forall i, j | 0 <= i < j < |picked| :: picked[i] != picked[j]
  }

  function Lease(row: Row, token: nat, now: nat): Row {
    row.(state := Running, attempts := row.attempts + 1, token := token, leaseUntil := now + LEASE_MILLIS)
  }

  /** One row of the claim loop: claimed under a fresh token unless its version differs. */
  function ClaimOne(db: Db, works: seq<Work>, id: nat, version: nat): (Db, seq<Work>)
    requires id in db.rows && id in db.sources
  {
    if db.rows[id].version != version then (db, works)
    else
      (db.(rows := db.rows[id := Lease(db.rows[id], db.nextToken, db.now)], nextToken := db.nextToken + 1),
       works + [Work(id, version, db.rows[id].attempts + 1, db.nextToken, db.sources[id].hash)])
  }

  /** The claim loop over the picked rows of one configuration version. */
  function ClaimRows(db: Db, picked: seq<nat>, version: nat): (Db, seq<Work>)
    requires Joined(db) && forall i | 0 <= i < |picked| :: picked[i] in db.rows
    ensures ClaimRows(db, picked, version).0.rows.Keys == db.rows.Keys
    ensures ClaimRows(db, picked, version).0.sources == db.sources
    ensures ClaimRows(db, picked, version).0.now == db.now
  {
    if picked == [] then (db, [])
    else
      var (d, works) := ClaimRows(db, picked[..|picked|-1], version);
      ClaimOne(d, works, picked[|picked|-1], version)
  }

  function ClaimTx(db: Db, picked: seq<nat>): (Db, seq<Work>)
    requires Joined(db) && SelectAnswer(SweepFailures(db), picked)
  {
    var swept := SweepFailures(db);
    if picked == [] then (swept, []) else ClaimRows(swept, picked, swept.rows[picked[0]].version)
  }

  function FinalState(w: Work, outcome: Outcome): RowState {
    match outcome
    case Answered(_) => Complete
    case InvalidInput => Failed
    case Unavailable(permanent) => if permanent || w.attempts >= MAX_ATTEMPTS then Failed else Pending
    case DnsFailed(_) => if w.attempts >= MAX_ATTEMPTS then Failed else Pending
  }

  function ResultOf(w: Work, outcome: Outcome): Option<Result> {
    match outcome
    case Answered(body) => Some(Result(w.raw, body))
    case DnsFailed(body) => Some(Result(w.raw, body))
    case _ => None
  }

  predicate FinishGuard(db: Db, clock: nat, w: Work) {
    && w.id in db.rows && w.id in db.sources && LeaseHeld(db.rows[w.id], w, clock)
    && db.rows[w.id].sourceHash == db.sources[w.id].hash && db.sources[w.id].live
  }

  /** The guarded UPDATE of finishNetworkEnrichment. */
  function FinishTx(db: Db, clock: nat, w: Work, outcome: Outcome): Db {
    if !FinishGuard(db, clock, w) then db
    else
      db.(rows := db.rows[w.id := db.rows[w.id].(
            state := FinalState(w, outcome), result := ResultOf(w, outcome),
            nextAt := clock + BACKOFF_MILLIS * w.attempts, token := 0, leaseUntil := 0)])
  }

  /** Its second statement, run only when the first one matched no row. */
  function FallbackTx(db: Db, clock: nat, w: Work): Db {
    if w.id in db.rows && LeaseHeld(db.rows[w.id], w, clock)
    then db.(rows := db.rows[w.id := db.rows[w.id].(state := Failed, token := 0)]) else db
  }

  function RetryRow(row: Row, source: Source, now: nat): Row {
    if Retryable(row, source)
    then row.(state := Pending, attempts := 0, token := 0, leaseUntil := 0, nextAt := now, sourceHash := source.hash)
    else row
  }

  /** RetryNetworkEnrichment over the rows of one run. */
  function RetryTx(db: Db, ids: set<nat>): Db
    requires Joined(db)
  {
    db.(rows := map id | id in db.rows ::
          if id in ids then RetryRow(db.rows[id], db.sources[id], db.now) else db.rows[id])
  }

  /** A possible answer of the seeding SELECT: materialized, live observations without a row. */
  predicate SeedAnswer(db: Db, ids: set<nat>) {
    && |ids| <= SEED_LIMIT
    && forall id | id in ids :: id !in db.rows && id in db.sources && db.sources[id].live && db.sources[id].materialized
  }

  /** seedNetworkEnrichment: a pending row for each chosen materialized observation without one. */
  function SeedTx(db: Db, ids: set<nat>, version: nat): Db
    requires ids <= db.sources.Keys
  {
    db.(rows := map id | id in db.rows.Keys + ids ::
          if id in db.rows then db.rows[id]
          else Row(Pending, 0, 0, 0, db.now, db.sources[id].hash, version, None))
  }

  // ----------------------------------------------------------------- queue

  class EnrichmentQueue {
    var rows: map<nat, Row>
    var sources: map<nat, Source>
    var now: nat
    var nextToken: nat

    function State(): Db
      reads this
    {
      Db(rows, sources, now, nextToken)
    }

    /** claimNetworkEnrichment in one transaction; `picked` is what its SELECT returned. */
    method ClaimNetworkEnrichment(picked: seq<nat>) returns (claimed: seq<Work>)
      requires Joined(State()) && SelectAnswer(SweepFailures(State()), picked)
      modifies this
      ensures (State(), claimed) == ClaimTx(old(State()), picked)
    {
      rows := map id | id in rows :: Invalidate(rows[id], sources[id]);
      rows := map id | id in rows :: Exhaust(rows[id], now);
      ghost var swept := SweepFailures(old(State()));
      assert State() == swept;
      if |picked| == 0 { return []; }
      claimed := ClaimPicked(picked);
    }

    /** The loop over the selected rows: the first one fixes the version of the batch. */
    method ClaimPicked(picked: seq<nat>) returns (claimed: seq<Work>)
      requires Joined(State()) && picked != [] && forall i | 0 <= i < |picked| :: picked[i] in rows
      modifies this`rows, this`nextToken
      ensures (State(), claimed) == ClaimRows(old(State()), picked, old(rows)[picked[0]].version)
    {
      ghost var start, version := State(), rows[picked[0]].version;
      claimed := [];
      for i := 0 to |picked|
        invariant rows.Keys == start.rows.Keys
        invariant (State(), claimed) == ClaimRows(start, picked[..i], version)
        invariant if claimed == [] then i == 0 else claimed[0].version == version
      {
        assert picked[..i + 1][..i] == picked[..i];
        var id := picked[i];
        var w := Work(id, rows[id].version, rows[id].attempts, 0, sources[id].hash);
        assert claimed == [] ==> State() == start;
        if |claimed| > 0 && w.version != claimed[0].version { continue; }
        w := w.(token := nextToken, attempts := w.attempts + 1);
        rows := rows[id := Lease(rows[id], w.token, now)];
        nextToken := nextToken + 1;
        claimed := claimed + [w];
      }
      assert picked[..|picked|] == picked;
    }

    /** finishNetworkEnrichment: both statements, with nobody in between. */
    method FinishNetworkEnrichment(w: Work, outcome: Outcome)
      requires Joined(State())
      modifies this`rows
      ensures State() == if FinishGuard(old(State()), now, w) then FinishTx(old(State()), now, w, outcome)
                         else FallbackTx(old(State()), now, w)
    {
      var clock := now;
      var state := Complete;
      var message := !outcome.Answered?;
      var permanent := outcome == InvalidInput || outcome == Unavailable(true);
      if message {
        state := Pending;
        if permanent || w.attempts >= MAX_ATTEMPTS { state := Failed; }
      }
      var changed := false;
      if w.id in rows {
        var row := rows[w.id];
        if row.state == Running && row.token == w.token && row.leaseUntil > clock
           && row.sourceHash == sources[w.id].hash && sources[w.id].live {
          rows := rows[w.id := row.(state := state, result := ResultOf(w, outcome),
                                    nextAt := clock + BACKOFF_MILLIS * w.attempts, token := 0, leaseUntil := 0)];
          changed := true;
        }
      }
      if !changed && w.id in rows {
        var row := rows[w.id];
        if row.state == Running && row.token == w.token && row.leaseUntil > clock {
          rows := rows[w.id := row.(state := Failed, token := 0)];
        }
      }
    }

    /** RetryNetworkEnrichment: one bulk update that reports how many rows it reset. */
    method RetryNetworkEnrichment(ids: set<nat>) returns (queued: nat)
      requires Joined(State())
      modifies this`rows
      ensures State() == RetryTx(old(State()), ids)
      ensures queued == |set id | id in old(rows) && id in ids && Retryable(old(rows)[id], sources[id])|
    {
      var todo := set id | id in rows && id in ids && Retryable(rows[id], sources[id]);
      rows := map id | id in rows ::
        if id in todo then rows[id].(state := Pending, attempts := 0, token := 0, leaseUntil := 0,
                                     nextAt := now, sourceHash := sources[id].hash)
        else rows[id];
      assert rows == RetryTx(old(State()), ids).rows;
      return |todo|;
    }
  }
}

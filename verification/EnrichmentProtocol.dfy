/** The enrichment queue under any interleaving of sweeps, workers, source changes and retries. */
module EnrichmentProtocol {
  import opened Options
  import opened Enrichment

  /** `issued` lists every claim ever made, in order; `owed` the finishes whose guarded update
      matched nothing and whose second statement is still to run, with the clock they read. */
  datatype Sys = Sys(db: Db, issued: seq<Work>, owed: map<nat, nat>)

  /** A source change keeps the observation of a row materialized while it is live: every ingest that
      rewrites an observation marks it materialized again before it commits. */
  datatype Event =
    | Tick(millis: nat)
    | SourceChange(id: nat, source: Source)
    | Seed(ids: set<nat>, version: nat)
    | Sweep(picked: seq<nat>)
    | Finish(i: nat, clock: nat, outcome: Outcome)
    | Fallback(i: nat)
    | Retry(ids: set<nat>)

  predicate Enabled(s: Sys, e: Event)
    requires Joined(s.db)
  {
    match e
    case SourceChange(id, source) => source.live && id in s.db.rows ==> source.materialized
    case Seed(ids, _) => SeedAnswer(s.db, ids)
    case Sweep(picked) => SelectAnswer(SweepFailures(s.db), picked)
    case Finish(i, clock, _) => i < |s.issued| && clock <= s.db.now
    case Fallback(i) => i in s.owed && i < |s.issued|
    case _ => true
  }

  ghost function Step(s: Sys, e: Event): Sys
    requires Joined(s.db)
  {
    if !Enabled(s, e) then s
    else match e
      case Tick(millis) => s.(db := s.db.(now := s.db.now + millis))
      case SourceChange(id, source) => s.(db := s.db.(sources := s.db.sources[id := source]))
      case Seed(ids, version) => s.(db := SeedTx(s.db, ids, version))
      case Sweep(picked) => var (db, works) := ClaimTx(s.db, picked); Sys(db, s.issued + works, s.owed)
      case Finish(i, clock, outcome) =>
        if FinishGuard(s.db, clock, s.issued[i])
        then s.(db := FinishTx(s.db, clock, s.issued[i], outcome))
        else s.(owed := s.owed[i := clock])
      case Fallback(i) => Sys(FallbackTx(s.db, s.owed[i], s.issued[i]), s.issued, s.owed - {i})
      case Retry(ids) => s.(db := RetryTx(s.db, ids))
  }

  // --------------------------------------------------------------- invariant

  predicate RowOk(row: Row, nextToken: nat) {
    && row.attempts <= MAX_ATTEMPTS
    && (row.state == Pending ==> row.attempts < MAX_ATTEMPTS)
    && (row.state == Running ==> 1 <= row.attempts && 0 < row.token < nextToken)
    && (row.state == Complete ==> row.result.Some? && row.result.value.raw == row.sourceHash)
  }

  /** The claim a running row stands for: same row, version, attempt, token and content. */
  function LeaseOf(id: nat, row: Row): Work {
    Work(id, row.version, row.attempts, row.token, row.sourceHash)
  }

  ghost predicate RowsOk(db: Db, issued: seq<Work>) {
    && (forall id | id in db.rows :: RowOk(db.rows[id], db.nextToken))
    && (forall id | id in db.rows && db.rows[id].state == Running :: LeaseOf(id, db.rows[id]) in issued)
  }

  /** Tokens are issued in increasing order, so no two claims ever share one. */
  ghost predicate TokensFresh(issued: seq<Work>, nextToken: nat) {
    && (forall i | 0 <= i < |issued| :: issued[i].token < nextToken)
    && (forall i, j | 0 <= i < j < |issued| :: issued[i].token < issued[j].token)
  }

  /** A live source of a row is materialized. */
  ghost predicate SourcesOk(db: Db)
    requires Joined(db)
  {
    forall id | id in db.rows && db.sources[id].live :: db.sources[id].materialized
  }

  ghost predicate Inv(db: Db, issued: seq<Work>) {
    Joined(db) && 0 < db.nextToken && RowsOk(db, issued) && TokensFresh(issued, db.nextToken) && SourcesOk(db)
  }

  ghost function Exec(s: Sys, events: seq<Event>): (t: Sys)
    requires Inv(s.db, s.issued)
    ensures Inv(t.db, t.issued)
    decreases |events|
  {
    if events == [] then s
    else
      var before := Exec(s, events[..|events|-1]);
      StepKeeps(before, events[|events|-1]);
      Step(before, events[|events|-1])
  }

  const EMPTY := Sys(Db(map[], map[], 0, 1), [], map[])

  // ------------------------------------------------- every event, row by row

  /** Two claims with the same token are the same claim. */
  lemma TokenIdentifies(issued: seq<Work>, nextToken: nat, v: Work, w: Work)
    requires TokensFresh(issued, nextToken) && v in issued && w in issued && v.token == w.token
    ensures v == w
  {
    var i :| 0 <= i < |issued| && issued[i] == v;
    var j :| 0 <= j < |issued| && issued[j] == w;
    assert !(i < j) && !(j < i);
  }

  /** A row the claim loop may meet: still below the cap, its content unchanged. */
  predicate Eligible(db: Db, id: nat) {
    && id in db.rows && id in db.sources && db.rows[id].attempts < MAX_ATTEMPTS
    && db.rows[id].sourceHash == db.sources[id].hash
  }

  predicate Selected(db: Db, picked: seq<nat>) {
    && (forall i | 0 <= i < |picked| :: Eligible(db, picked[i]))
    && forall i, j | 0 <= i < j < |picked| :: picked[i] != picked[j]
  }

  lemma SweepFailuresKeep(db: Db, issued: seq<Work>, picked: seq<nat>)
    requires Inv(db, issued)
    ensures Inv(SweepFailures(db), issued)
    ensures SelectAnswer(SweepFailures(db), picked) ==> Selected(SweepFailures(db), picked)
  {}

  lemma ClaimOneKeeps(db: Db, issued: seq<Work>, works: seq<Work>, id: nat, version: nat)
    requires Inv(db, issued + works) && Eligible(db, id)
    ensures var (d, all) := ClaimOne(db, works, id, version); Inv(d, issued + all)
  {
    if db.rows[id].version == version {
      var w := Work(id, version, db.rows[id].attempts + 1, db.nextToken, db.sources[id].hash);
      assert issued + (works + [w]) == (issued + works) + [w];
      assert w in (issued + works) + [w];
      forall v | v in issued + works ensures v in (issued + works) + [w] {}
    }
  }

  /** How many claims of one row a list holds. */
  ghost function Claims(works: seq<Work>, id: nat): nat {
    if works == [] then 0
    else Claims(works[..|works|-1], id) + (if works[|works|-1].id == id then 1 else 0)
  }

  /** What the claim loop makes of one row: a fresh lease if it was picked at the right version. */
  ghost predicate Leased(before: Db, picked: seq<nat>, version: nat, after: Db, works: seq<Work>, id: nat)
    requires id in before.rows && id in after.rows
  {
    if id in picked && before.rows[id].version == version
    then && before.nextToken <= after.rows[id].token < after.nextToken
         && after.rows[id] == Lease(before.rows[id], after.rows[id].token, before.now)
         && Claims(works, id) == 1
    else after.rows[id] == before.rows[id] && Claims(works, id) == 0
  }

  lemma {:induction false} ClaimRowsEffect(db: Db, picked: seq<nat>, version: nat, id: nat)
    requires Joined(db) && Selected(db, picked) && id in db.rows
    ensures var (d, works) := ClaimRows(db, picked, version);
            db.nextToken <= d.nextToken && Leased(db, picked, version, d, works, id)
    decreases |picked|
  {
    if picked != [] {
      var n := |picked| - 1;
      var last := picked[n];
      ClaimRowsEffect(db, picked[..n], version, id);
      var (d, works) := ClaimRows(db, picked[..n], version);
      assert picked == picked[..n] + [last];
      if id == last {
        assert last !in picked[..n];
        assert d.rows[id] == db.rows[id];
      } else {
        assert id in picked <==> id in picked[..n];
        ClaimOneFrame(d, works, last, version, id);
      }
    }
  }

  lemma ClaimOneFrame(db: Db, works: seq<Work>, last: nat, version: nat, id: nat)
    requires last in db.rows && last in db.sources && id in db.rows && id != last
    ensures var (d, all) := ClaimOne(db, works, last, version);
            d.rows[id] == db.rows[id] && Claims(all, id) == Claims(works, id) && d.nextToken >= db.nextToken
  {}

  lemma {:induction false} ClaimRowsKeep(db: Db, issued: seq<Work>, picked: seq<nat>, version: nat)
    requires Inv(db, issued) && Selected(db, picked)
    ensures var (d, works) := ClaimRows(db, picked, version); Inv(d, issued + works)
    decreases |picked|
  {
    if picked == [] {
      assert issued + [] == issued;
    } else {
      var n := |picked| - 1;
      ClaimRowsKeep(db, issued, picked[..n], version);
      ClaimRowsEffect(db, picked[..n], version, picked[n]);
      var (d, works) := ClaimRows(db, picked[..n], version);
      assert picked[n] !in picked[..n] && Eligible(db, picked[n]);
      assert Leased(db, picked[..n], version, d, works, picked[n]);
      ClaimOneKeeps(d, issued, works, picked[n], version);
    }
  }

  lemma SweepKeeps(s: Sys, picked: seq<nat>)
    requires Inv(s.db, s.issued) && Enabled(s, Sweep(picked))
    ensures var t := Step(s, Sweep(picked)); Inv(t.db, t.issued)
  {
    hide RowsOk, TokensFresh, SourcesOk, ClaimRows;
    var swept := SweepFailures(s.db);
    SweepFailuresKeep(s.db, s.issued, picked);
    assert s.issued + [] == s.issued;
    if picked != [] { ClaimRowsKeep(swept, s.issued, picked, swept.rows[picked[0]].version); }
  }

  lemma FinishKeeps(db: Db, issued: seq<Work>, w: Work, clock: nat, outcome: Outcome)
    requires Inv(db, issued) && w in issued
    ensures Inv(FinishTx(db, clock, w, outcome), issued)
  {
    if FinishGuard(db, clock, w) { TokenIdentifies(issued, db.nextToken, w, LeaseOf(w.id, db.rows[w.id])); }
    hide TokensFresh;
  }

  lemma FallbackKeeps(db: Db, issued: seq<Work>, w: Work, clock: nat)
    requires Inv(db, issued)
    ensures Inv(FallbackTx(db, clock, w), issued)
  {
    hide TokensFresh;
  }

  lemma SeedKeeps(db: Db, issued: seq<Work>, ids: set<nat>, version: nat)
    requires Inv(db, issued) && SeedAnswer(db, ids)
    ensures Inv(SeedTx(db, ids, version), issued)
  {
    hide TokensFresh;
  }

  lemma RetryKeeps(db: Db, issued: seq<Work>, ids: set<nat>)
    requires Inv(db, issued)
    ensures Inv(RetryTx(db, ids), issued)
  {
    hide TokensFresh;
  }

  lemma SourcesStepKeeps(s: Sys, e: Event)
    requires Inv(s.db, s.issued) && (e.Tick? || e.SourceChange?)
    ensures Inv(Step(s, e).db, Step(s, e).issued)
  {
    hide TokensFresh, RowOk;
  }

  lemma StepKeeps(s: Sys, e: Event)
    requires Inv(s.db, s.issued)
    ensures Inv(Step(s, e).db, Step(s, e).issued)
  {
    hide RowsOk, TokensFresh, SourcesOk, ClaimTx, SelectAnswer;
    match e
    case Sweep(picked) => if Enabled(s, e) { SweepKeeps(s, picked); }
    case Finish(i, clock, outcome) =>
      if Enabled(s, e) { FinishKeeps(s.db, s.issued, s.issued[i], clock, outcome); }
    case Fallback(i) => if Enabled(s, e) { FallbackKeeps(s.db, s.issued, s.issued[i], s.owed[i]); }
    case Seed(ids, version) => if Enabled(s, e) { SeedKeeps(s.db, s.issued, ids, version); }
    case Retry(ids) => RetryKeeps(s.db, s.issued, ids);
    case _ => SourcesStepKeeps(s, e);
  }

  /** What a sweep makes of one row: swept to failed or left alone, then leased if it was picked. */
  ghost predicate SweptRow(s: Sys, picked: seq<nat>, id: nat, t: Sys)
    requires id in s.db.rows && id in s.db.sources && id in t.db.rows
  {
    var row, after := s.db.rows[id], t.db.rows[id];
    var swept := Exhaust(Invalidate(row, s.db.sources[id]), s.db.now);
    if after == swept then Claims(t.issued, id) == Claims(s.issued, id)
    else && id in picked && swept == row && Claimable(row, s.db.sources[id], s.db.now)
         && row.sourceHash == s.db.sources[id].hash && s.db.nextToken <= after.token
         && after == Lease(row, after.token, s.db.now) && Claims(t.issued, id) == Claims(s.issued, id) + 1
  }

  lemma SweepOnRow(s: Sys, picked: seq<nat>, id: nat)
    requires Inv(s.db, s.issued) && Enabled(s, Sweep(picked)) && id in s.db.rows
    ensures var t := Step(s, Sweep(picked));
            && id in t.db.rows && SweptRow(s, picked, id, t)
            && s.db.nextToken <= t.db.nextToken && t.db.sources == s.db.sources && t.db.now == s.db.now
            && (picked != [] && id == picked[0] ==> t.db.rows[id].attempts == s.db.rows[id].attempts + 1)
  {
    var swept := SweepFailures(s.db);
    SweepFailuresKeep(s.db, s.issued, picked);
    if picked == [] {
      assert s.issued + [] == s.issued;
    } else {
      var version := swept.rows[picked[0]].version;
      ClaimRowsEffect(swept, picked, version, id);
      ClaimsAppend(s.issued, ClaimRows(swept, picked, version).1, id);
      if id in picked {
        var k :| 0 <= k < |picked| && picked[k] == id;
        assert Claimable(swept.rows[picked[k]], swept.sources[picked[k]], swept.now);
      }
    }
  }

  lemma {:induction false} ClaimsAppend(a: seq<Work>, b: seq<Work>, id: nat)
    ensures Claims(a + b, id) == Claims(a, id) + Claims(b, id)
    decreases |b|
  {
    if b == [] {
      assert a + b == a;
    } else {
      ClaimsAppend(a, b[..|b|-1], id);
      assert (a + b)[..|a + b|-1] == a + b[..|b|-1];
    }
  }

  // ------------------------------------------------------------ main results

  /** In every reachable state a pending row has attempts left, a running row stands for exactly one
      of the claims ever issued, with its attempt number and content, and a stored result was
      computed from the content its row names. */
  lemma QueueIsSound(events: seq<Event>, id: nat)
    ensures var s := Exec(EMPTY, events);
            id in s.db.rows ==>
            var row := s.db.rows[id];
            && (row.state == Pending ==> row.attempts < MAX_ATTEMPTS)
            && (row.state == Running ==>
                  && 1 <= row.attempts <= MAX_ATTEMPTS && LeaseOf(id, row) in s.issued
                  && forall w | w in s.issued && w.token == row.token :: w == LeaseOf(id, row))
            && (row.state == Complete ==> row.result.Some? && row.result.value.raw == row.sourceHash)
  {
    var s := Exec(EMPTY, events);
    if id in s.db.rows && s.db.rows[id].state == Running {
      var row := s.db.rows[id];
      forall w | w in s.issued && w.token == row.token ensures w == LeaseOf(id, row) {
        TokenIdentifies(s.issued, s.db.nextToken, w, LeaseOf(id, row));
      }
    }
  }

  /** Only the current holder writes, only its own row, only while its lease was unexpired at the
      clock it read; and a result only under the very content the holder was given. */
  lemma OnlyTheHolderWrites(s: Sys, e: Event)
    requires Inv(s.db, s.issued) && (e.Finish? || e.Fallback?) && Step(s, e).db != s.db
    ensures e.i < |s.issued| && (e.Fallback? ==> e.i in s.owed)
    ensures var w := s.issued[e.i];
            var clock := if e.Finish? then e.clock else s.owed[e.i];
            && w.id in s.db.rows && s.db.rows[w.id].state == Running
            && w == LeaseOf(w.id, s.db.rows[w.id]) && clock < s.db.rows[w.id].leaseUntil
            && (forall id | id in s.db.rows && id != w.id :: Step(s, e).db.rows[id] == s.db.rows[id])
            && (Step(s, e).db.rows[w.id].result != s.db.rows[w.id].result ==>
                  s.db.sources[w.id].live && s.db.sources[w.id].hash == w.raw)
    ensures forall j | 0 <= j < |s.issued| && j != e.i :: s.issued[j].token != s.issued[e.i].token
  {
    var w := s.issued[e.i];
    assert w in s.issued && LeaseOf(w.id, s.db.rows[w.id]) in s.issued;
    TokenIdentifies(s.issued, s.db.nextToken, w, LeaseOf(w.id, s.db.rows[w.id]));
  }

  /** The claim no longer is its row's lease. */
  predicate Lost(db: Db, w: Work) {
    w.token < db.nextToken && (w.id in db.rows && db.rows[w.id].state == Running ==> db.rows[w.id].token != w.token)
  }

  lemma LostStep(s: Sys, e: Event, w: Work)
    requires Inv(s.db, s.issued) && Lost(s.db, w)
    ensures Lost(Step(s, e).db, w)
  {
    if Enabled(s, e) && e.Sweep? {
      if w.id in s.db.rows { SweepOnRow(s, e.picked, w.id); }
      else if e.picked != [] { SweepOnRow(s, e.picked, e.picked[0]); }
    }
  }

  /** A worker that finished, or whose lease was taken over, swept away or reset, never changes the
      queue again, whatever else happens and whenever it answers. */
  lemma {:induction false} LostForever(s: Sys, events: seq<Event>, i: nat, e: Event)
    requires Inv(s.db, s.issued) && i < |s.issued| && Lost(s.db, s.issued[i])
    requires (e.Finish? || e.Fallback?) && e.i == i
    ensures i < |Exec(s, events).issued| && Exec(s, events).issued[i] == s.issued[i]
    ensures Lost(Exec(s, events).db, s.issued[i])
    ensures Step(Exec(s, events), e).db == Exec(s, events).db
    decreases |events|
  {
    hide TokensFresh, RowsOk, SourcesOk;
    if events != [] {
      var before := Exec(s, events[..|events|-1]);
      LostForever(s, events[..|events|-1], i, e);
      LostStep(before, events[|events|-1], s.issued[i]);
      IssuedKept(before, events[|events|-1], i);
    }
    LostIsSilent(Exec(s, events), e);
  }

  lemma IssuedKept(s: Sys, e: Event, i: nat)
    requires Inv(s.db, s.issued) && i < |s.issued|
    ensures i < |Step(s, e).issued| && Step(s, e).issued[i] == s.issued[i]
  {}

  /** The finishing statements of a lost claim write nothing. */
  lemma LostIsSilent(s: Sys, e: Event)
    requires Inv(s.db, s.issued) && (e.Finish? || e.Fallback?)
    requires e.i < |s.issued| && Lost(s.db, s.issued[e.i])
    ensures Step(s, e).db == s.db
  {}

  /** An upper bound on how often a row can still change state. */
  function Budget(row: Row): nat
    requires row.attempts <= MAX_ATTEMPTS
  {
    match row.state
    case Pending => 2 * (MAX_ATTEMPTS - row.attempts)
    case Running => 2 * (MAX_ATTEMPTS - row.attempts) + 1
    case _ => 0
  }

  predicate Moved(before: Row, after: Row) {
    before.state != after.state || before.attempts != after.attempts
  }

  predicate Retries(e: Event, id: nat) {
    e.Retry? && id in e.ids
  }

  /** Any event but a retry of the row either leaves its state and attempts alone or spends budget;
      attempts grow by exactly the claims issued. */
  lemma RowStep(s: Sys, e: Event, id: nat)
    requires Inv(s.db, s.issued) && id in s.db.rows && !Retries(e, id)
    ensures var t := Step(s, e);
            && id in t.db.rows && t.db.rows[id].attempts <= MAX_ATTEMPTS
            && (Moved(s.db.rows[id], t.db.rows[id]) ==> Budget(t.db.rows[id]) < Budget(s.db.rows[id]))
            && Claims(t.issued, id) - Claims(s.issued, id) == t.db.rows[id].attempts - s.db.rows[id].attempts
  {
    if Enabled(s, e) && e.Sweep? { SweepOnRow(s, e.picked, id); }
  }

  /** How many steps of an execution moved one row. */
  ghost function Moves(s: Sys, events: seq<Event>, id: nat): nat
    requires Inv(s.db, s.issued)
    decreases |events|
  {
    if events == [] then 0
    else
      var before := Exec(s, events[..|events|-1]).db;
      var after := Exec(s, events).db;
      Moves(s, events[..|events|-1], id)
      + (if id in before.rows && id in after.rows && Moved(before.rows[id], after.rows[id]) then 1 else 0)
  }

  /** Between two retries a row changes state at most ten times and is claimed at most five times,
      whatever the interleaving. */
  lemma {:induction false} RowIsBounded(s: Sys, events: seq<Event>, id: nat)
    requires Inv(s.db, s.issued) && id in s.db.rows
    requires forall k | 0 <= k < |events| :: !Retries(events[k], id)
    ensures var t := Exec(s, events);
            && id in t.db.rows && t.db.rows[id].attempts <= MAX_ATTEMPTS
            && Moves(s, events, id) + Budget(t.db.rows[id]) <= Budget(s.db.rows[id]) <= 10
            && Claims(t.issued, id) - Claims(s.issued, id) == t.db.rows[id].attempts - s.db.rows[id].attempts
            && Claims(t.issued, id) - Claims(s.issued, id) <= MAX_ATTEMPTS
    decreases |events|
  {
    if events != [] {
      var n := |events| - 1;
      RowIsBounded(s, events[..n], id);
      RowStep(Exec(s, events[..n]), events[n], id);
    }
  }

  predicate Finished(row: Row) {
    row.state == Complete || row.state == Failed
  }

  /** A row a sweep can do nothing about: done, waiting for its backoff, or under a live lease. */
  predicate Rests(row: Row, source: Source, now: nat) {
    || Finished(row)
    || (&& source.live && row.sourceHash == source.hash
        && (if row.state == Pending then now < row.nextAt else now <= row.leaseUntil))
  }

  /** No row can be claimed once the sweep has failed what it must. */
  ghost predicate NothingClaimable(db: Db)
    requires Joined(db)
  {
    forall id | id in db.rows :: !Claimable(SweepFailures(db).rows[id], db.sources[id], db.now)
  }

  /** A resting row is left alone by every sweep; a sweep that finds something moves the first row
      it selects; and one that finds nothing claimable fails every row that does not rest. */
  lemma SweepProgress(s: Sys, picked: seq<nat>, id: nat)
    requires Inv(s.db, s.issued) && Enabled(s, Sweep(picked)) && id in s.db.rows
    ensures var t := Step(s, Sweep(picked));
            var (row, source, now) := (s.db.rows[id], s.db.sources[id], s.db.now);
            && (Rests(row, source, now) ==> t.db.rows[id] == row)
            && (picked != [] && picked[0] == id ==> Moved(row, t.db.rows[id]))
            && (NothingClaimable(s.db) ==> Rests(row, source, now) || t.db.rows[id].state == Failed)
  {
    SweepOnRow(s, picked, id);
  }

  // -------------------------------------------------------------- no wedged row

  /** How many sweeps an unfinished row can still use: one for each attempt left, one to fail. */
  function Chances(row: Row): nat
    requires row.attempts <= MAX_ATTEMPTS
  {
    if Finished(row) then 0 else MAX_ATTEMPTS + 1 - row.attempts
  }

  /** The sweep's turn comes for the row: it is done already, or its backoff or lease is over and the
      sweep selects it (first, or at the first one's version) or finds nothing left to claim. */
  ghost predicate Serves(db: Db, picked: seq<nat>, id: nat)
    requires Joined(db) && id in db.rows && SelectAnswer(SweepFailures(db), picked)
  {
    || Finished(db.rows[id])
    || (&& !Rests(db.rows[id], db.sources[id], db.now)
        && (NothingClaimable(db)
            || (id in picked && SweepFailures(db).rows[id].version == SweepFailures(db).rows[picked[0]].version)))
  }

  lemma ServedRowMoves(s: Sys, picked: seq<nat>, id: nat)
    requires Inv(s.db, s.issued) && Enabled(s, Sweep(picked)) && id in s.db.rows
    requires Serves(s.db, picked, id) && !Finished(s.db.rows[id])
    ensures var row := Step(s, Sweep(picked)).db.rows[id];
            row.attempts <= MAX_ATTEMPTS && Chances(row) < Chances(s.db.rows[id])
  {
    SweepOnRow(s, picked, id);
    var swept := SweepFailures(s.db);
    if !NothingClaimable(s.db) {
      SweepFailuresKeep(s.db, s.issued, picked);
      ClaimRowsEffect(swept, picked, swept.rows[picked[0]].version, id);
    }
  }

  /** No event but a retry of the row gives it more chances, and a finished row stays as it is. */
  lemma ChancesStep(s: Sys, e: Event, id: nat)
    requires Inv(s.db, s.issued) && id in s.db.rows && !Retries(e, id)
    ensures var t := Step(s, e);
            && id in t.db.rows && t.db.rows[id].attempts <= MAX_ATTEMPTS
            && Chances(t.db.rows[id]) <= Chances(s.db.rows[id])
            && (Finished(s.db.rows[id]) ==> t.db.rows[id].state == s.db.rows[id].state)
  {
    StepKeeps(s, e);
    if Enabled(s, e) && e.Sweep? { SweepOnRow(s, e.picked, id); }
  }

  /** How many sweeps of an execution served the row. */
  ghost function Served(s: Sys, events: seq<Event>, id: nat): nat
    requires Inv(s.db, s.issued)
    decreases |events|
  {
    if events == [] then 0
    else
      var before, last := Exec(s, events[..|events|-1]), events[|events|-1];
      Served(s, events[..|events|-1], id)
      + (if last.Sweep? && Enabled(before, last) && id in before.db.rows && Serves(before.db, last.picked, id)
         then 1 else 0)
  }

  lemma {:induction false} ServingSpends(s: Sys, events: seq<Event>, id: nat)
    requires Inv(s.db, s.issued) && id in s.db.rows
    requires forall k | 0 <= k < |events| :: !Retries(events[k], id)
    ensures var t := Exec(s, events);
            && id in t.db.rows && t.db.rows[id].attempts <= MAX_ATTEMPTS
            && (Finished(t.db.rows[id]) || Served(s, events, id) + Chances(t.db.rows[id]) <= Chances(s.db.rows[id]))
            && (Finished(s.db.rows[id]) ==> t.db.rows[id].state == s.db.rows[id].state)
    decreases |events|
  {
    if events != [] {
      var n := |events| - 1;
      ServingSpends(s, events[..n], id);
      var t := Exec(s, events[..n]);
      ChancesStep(t, events[n], id);
      if events[n].Sweep? && Enabled(t, events[n]) && Serves(t.db, events[n].picked, id) && !Finished(t.db.rows[id]) {
        ServedRowMoves(t, events[n].picked, id);
      }
    }
  }

  /** No wedged row: from any reachable state, under any interleaving without a retry of the row and
      whatever happens to workers and sources, six sweeps that serve a row leave it complete or
      failed, and it then stays so. */
  lemma ServedRowsSettle(before: seq<Event>, events: seq<Event>, more: seq<Event>, id: nat)
    requires id in Exec(EMPTY, before).db.rows
    requires forall k | 0 <= k < |events| :: !Retries(events[k], id)
    requires forall k | 0 <= k < |more| :: !Retries(more[k], id)
    requires Served(Exec(EMPTY, before), events, id) >= MAX_ATTEMPTS + 1
    ensures var t := Exec(Exec(EMPTY, before), events);
            && id in t.db.rows && Finished(t.db.rows[id])
            && id in Exec(t, more).db.rows && Exec(t, more).db.rows[id].state == t.db.rows[id].state
  {
    var s := Exec(EMPTY, before);
    ServingSpends(s, events, id);
    ServingSpends(Exec(s, events), more, id);
  }

  lemma {:induction false} ExecConcat(s: Sys, a: seq<Event>, b: seq<Event>)
    requires Inv(s.db, s.issued)
    ensures Exec(s, a + b) == Exec(Exec(s, a), b)
    decreases |b|
  {
    if b == [] {
      assert a + b == a;
    } else {
      ExecConcat(s, a, b[..|b|-1]);
      assert (a + b)[..|a + b|-1] == a + b[..|b|-1];
    }
  }

  lemma TwoSteps(s: Sys, events: seq<Event>)
    requires Inv(s.db, s.issued) && |events| == 2
    ensures Inv(Step(s, events[0]).db, Step(s, events[0]).issued)
    ensures Exec(s, events) == Step(Step(s, events[0]), events[1])
  {
    StepKeeps(s, events[0]);
    assert events[..1][..0] == [] && Exec(s, events[..1]) == Step(Exec(s, []), events[0]);
  }

  /** A row whose backoff or lease is over can be taken, or failed, by a sweep. */
  lemma SweepTakes(s: Sys, id: nat) returns (picked: seq<nat>)
    requires Inv(s.db, s.issued) && id in s.db.rows && !Rests(s.db.rows[id], s.db.sources[id], s.db.now)
    ensures Enabled(s, Sweep(picked))
    ensures var t := Step(s, Sweep(picked));
            id in t.db.rows && t.db.rows[id].attempts <= MAX_ATTEMPTS && Chances(t.db.rows[id]) < Chances(s.db.rows[id])
  {
    hide TokensFresh, ClaimRows;
    var swept := SweepFailures(s.db);
    picked := if Finished(swept.rows[id]) then [] else [id];
    assert Enabled(s, Sweep(picked));
    SweepOnRow(s, picked, id);
  }

  /** Waiting is all it takes: time passes and a sweep takes the row, or fails it. */
  lemma Serve(s: Sys, id: nat) returns (events: seq<Event>)
    requires Inv(s.db, s.issued) && id in s.db.rows && !Finished(s.db.rows[id])
    ensures OnlySweeps(events)
    ensures var t := Exec(s, events);
            id in t.db.rows && t.db.rows[id].attempts <= MAX_ATTEMPTS && Chances(t.db.rows[id]) < Chances(s.db.rows[id])
  {
    hide RowsOk, TokensFresh, Exec, SelectAnswer, SweepFailures, ClaimTx;
    assert s.db.rows[id].attempts <= MAX_ATTEMPTS by { AttemptsBounded(s, id); }
    var row := s.db.rows[id];
    var due := if row.state == Pending then row.nextAt else row.leaseUntil + 1;
    var wait := Tick(if due > s.db.now then due - s.db.now else 0);
    StepKeeps(s, wait);
    var picked := SweepTakes(Step(s, wait), id);
    events := [wait, Sweep(picked)];
    TwoSteps(s, events);
  }

  lemma AttemptsBounded(s: Sys, id: nat)
    requires Inv(s.db, s.issued) && id in s.db.rows
    ensures s.db.rows[id].attempts <= MAX_ATTEMPTS
  {}

  predicate OnlySweeps(events: seq<Event>) {
    forall e | e in events :: e.Tick? || e.Sweep?
  }

  /** From every reachable state and for every row, time and sweeps alone can settle the row. */
  lemma {:induction false} CanSettle(s: Sys, id: nat) returns (events: seq<Event>)
    requires Inv(s.db, s.issued) && id in s.db.rows
    ensures OnlySweeps(events)
    ensures id in Exec(s, events).db.rows && Finished(Exec(s, events).db.rows[id])
    decreases Chances(s.db.rows[id])
  {
    if Finished(s.db.rows[id]) {
      events := [];
    } else {
      var first := Serve(s, id);
      var rest := CanSettle(Exec(s, first), id);
      ExecConcat(s, first, rest);
      events := first + rest;
    }
  }
}

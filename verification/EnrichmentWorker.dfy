/** One scheduled pass over the enrichment queue: seed, claim, answer, finish. */
module EnrichmentWorker {
  import opened Options
  import opened Enrichment

  /** The claim is live: its row runs under its token, unexpired, on the content it carries. */
  predicate Current(db: Db, w: Work) {
    FinishGuard(db, db.now, w) && w.attempts == db.rows[w.id].attempts && w.raw == db.rows[w.id].sourceHash
  }

  ghost predicate AllCurrent(db: Db, works: seq<Work>) {
    && (forall i | 0 <= i < |works| :: Current(db, works[i]))
    && forall i, j | 0 <= i < j < |works| :: works[i].id != works[j].id
  }

  /** What the sweep guarantees of a row it selects. */
  predicate Fresh(db: Db, id: nat) {
    && id in db.rows && id in db.sources && db.sources[id].live && db.rows[id].sourceHash == db.sources[id].hash
  }

  lemma ClaimOneCurrent(db: Db, works: seq<Work>, id: nat, version: nat)
    requires AllCurrent(db, works) && Fresh(db, id) && forall i | 0 <= i < |works| :: works[i].id != id
    ensures AllCurrent(ClaimOne(db, works, id, version).0, ClaimOne(db, works, id, version).1)
  {}

  /** Every claim of a sweep is current when its transaction commits, one claim a row. */
  lemma {:induction false} ClaimsAreCurrent(db: Db, picked: seq<nat>, version: nat)
    requires Joined(db) && forall i | 0 <= i < |picked| :: picked[i] in db.rows && Fresh(db, picked[i])
    requires forall i, j | 0 <= i < j < |picked| :: picked[i] != picked[j]
    ensures AllCurrent(ClaimRows(db, picked, version).0, ClaimRows(db, picked, version).1)
    ensures forall i | 0 <= i < |ClaimRows(db, picked, version).1| :: ClaimRows(db, picked, version).1[i].id in picked
    ensures forall id | id in db.rows && id !in picked :: ClaimRows(db, picked, version).0.rows[id] == db.rows[id]
    decreases |picked|
  {
    if picked != [] {
      var n := |picked| - 1;
      ClaimsAreCurrent(db, picked[..n], version);
      var (d, works) := ClaimRows(db, picked[..n], version);
      assert picked == picked[..n] + [picked[n]] && picked[n] !in picked[..n];
      assert Fresh(db, picked[n]) && d.rows[picked[n]] == db.rows[picked[n]];
      ClaimOneCurrent(d, works, picked[n], version);
    }
  }

  lemma SelectedAreFresh(db: Db, picked: seq<nat>)
    requires Joined(db) && SelectAnswer(SweepFailures(db), picked)
    ensures forall i | 0 <= i < |picked| :: picked[i] in db.rows && Fresh(SweepFailures(db), picked[i])
  {}

  /** The row after its worker reported: its final state, its result or backoff, no lease. */
  function Settled(row: Row, w: Work, outcome: Outcome, now: nat): Row {
    row.(state := FinalState(w, outcome), result := ResultOf(w, outcome),
         nextAt := now + BACKOFF_MILLIS * w.attempts, token := 0, leaseUntil := 0)
  }

  ghost predicate SettledUpTo(before: Db, after: Db, works: seq<Work>, n: nat, outcomes: map<nat, Outcome>) {
    && n <= |works| && before.rows.Keys == after.rows.Keys && before.sources == after.sources && before.now == after.now
    && (forall i | 0 <= i < n :: works[i].id in after.rows && works[i].id in before.rows
          && after.rows[works[i].id]
             == Settled(before.rows[works[i].id], works[i], Outcomes(outcomes, works[i].id), before.now))
    && (forall i | n <= i < |works| :: Current(after, works[i]) && after.rows[works[i].id] == before.rows[works[i].id])
    && (forall id | id in before.rows && (forall i | 0 <= i < |works| :: works[i].id != id) ::
          after.rows[id] == before.rows[id])
  }

  /** The engine's answer for a row; a row without one could not be sent. */
  function Outcomes(outcomes: map<nat, Outcome>, id: nat): Outcome {
    if id in outcomes then outcomes[id] else InvalidInput
  }

  lemma SettleNext(before: Db, db: Db, works: seq<Work>, n: nat, outcomes: map<nat, Outcome>)
    requires Joined(before) && AllCurrent(before, works) && SettledUpTo(before, db, works, n, outcomes) && n < |works|
    ensures Joined(db) && FinishGuard(db, db.now, works[n])
    ensures SettledUpTo(before, FinishTx(db, db.now, works[n], Outcomes(outcomes, works[n].id)), works, n + 1, outcomes)
  {
    hide FinalState, ResultOf, Settled, Outcomes;
    var outcome := Outcomes(outcomes, works[n].id);
    assert Current(db, works[n]);
    forall i | 0 <= i < |works| && i != n ensures works[i].id != works[n].id { DifferentRows(before, works, i, n); }
    OwnRowSettled(db, works[n], outcome);
  }

  lemma DifferentRows(db: Db, works: seq<Work>, i: nat, j: nat)
    requires AllCurrent(db, works) && i < |works| && j < |works| && i != j
    ensures works[i].id != works[j].id
  {
    if i < j { assert works[i].id != works[j].id; } else { assert works[j].id != works[i].id; }
  }

  lemma OwnRowSettled(db: Db, w: Work, outcome: Outcome)
    requires FinishGuard(db, db.now, w)
    ensures FinishTx(db, db.now, w, outcome) == db.(rows := db.rows[w.id := Settled(db.rows[w.id], w, outcome, db.now)])
  {}

  class Worker {
    const queue: EnrichmentQueue

    constructor (queue: EnrichmentQueue)
      ensures this.queue == queue
    {
      this.queue := queue;
    }

    /** seedNetworkEnrichment for the observations its SELECT chose. */
    method Seed(ids: set<nat>, version: nat)
      requires Joined(queue.State()) && SeedAnswer(queue.State(), ids)
      modifies queue
      ensures queue.State() == SeedTx(old(queue.State()), ids, version)
    {
      queue.rows := map id | id in queue.rows.Keys + ids ::
        if id in queue.rows then queue.rows[id]
        else Row(Pending, 0, 0, 0, queue.now, queue.sources[id].hash, version, None);
    }

    /** The finishing loops of EnrichWebNetwork, nobody in between. */
    method Settle(work: seq<Work>, outcomes: map<nat, Outcome>)
      requires Joined(queue.State()) && AllCurrent(queue.State(), work)
      modifies queue
      ensures SettledUpTo(old(queue.State()), queue.State(), work, |work|, outcomes)
    {
      ghost var before := queue.State();
      assert SettledUpTo(before, before, work, 0, outcomes);
      hide FinalState, ResultOf, Settled, SettledUpTo, AllCurrent;
      for i := 0 to |work|
        invariant SettledUpTo(before, queue.State(), work, i, outcomes)
      {
        SettleNext(before, queue.State(), work, i, outcomes);
        queue.FinishNetworkEnrichment(work[i], Outcomes(outcomes, work[i].id));
      }
    }

    /** EnrichWebNetwork undisturbed: after seeding, every claimed row is settled by its outcome and
        no other row moves. The rows settle one by one; their order makes no difference. */
    method EnrichWebNetwork(seeds: set<nat>, version: nat, picked: seq<nat>, outcomes: map<nat, Outcome>)
      returns (done: nat, ghost claimed: seq<Work>, ghost atClaim: Db)
      requires Joined(queue.State()) && SeedAnswer(queue.State(), seeds)
      requires SelectAnswer(SweepFailures(SeedTx(queue.State(), seeds, version)), picked)
      modifies queue
      ensures (atClaim, claimed) == ClaimTx(SeedTx(old(queue.State()), seeds, version), picked)
      ensures done == |claimed| && SettledUpTo(atClaim, queue.State(), claimed, done, outcomes)
    {
      hide SettledUpTo, Settled;
      Seed(seeds, version);
      ghost var seeded := queue.State();
      var work := queue.ClaimNetworkEnrichment(picked);
      claimed, atClaim, done := work, queue.State(), |work|;
      ClaimTxCurrent(seeded, picked);
      Settle(work, outcomes);
    }
  }

  lemma ClaimTxCurrent(db: Db, picked: seq<nat>)
    requires Joined(db) && SelectAnswer(SweepFailures(db), picked)
    ensures Joined(ClaimTx(db, picked).0) && AllCurrent(ClaimTx(db, picked).0, ClaimTx(db, picked).1)
  {
    SelectedAreFresh(db, picked);
    if picked != [] {
      ClaimsAreCurrent(SweepFailures(db), picked, SweepFailures(db).rows[picked[0]].version);
    }
  }
}

/** Why enrichment rows end as they do, and how long they are left alone. */
module EnrichmentCauses {
  import opened Options
  import opened Enrichment
  import opened EnrichmentProtocol

  // ------------------------------------------------------------ one finish

  /** The engine or its resolver failed in a way that another attempt may mend. */
  predicate Transient(outcome: Outcome) {
    outcome.DnsFailed? || (outcome.Unavailable? && !outcome.permanent)
  }

  /** What a finish under a held lease on an unchanged, live source stores: an answer completes the
      row; a permanent or invalid outcome fails it; a transient one fails it at the fifth attempt and
      otherwise makes it wait 20 seconds per attempt from the worker's clock. */
  lemma FinishEffect(s: Sys, i: nat, clock: nat, outcome: Outcome)
    requires Inv(s.db, s.issued) && i < |s.issued| && clock <= s.db.now
    requires FinishGuard(s.db, clock, s.issued[i])
    ensures var w := s.issued[i];
            var t := Step(s, Finish(i, clock, outcome));
            var row := t.db.rows[w.id];
            && w.attempts == s.db.rows[w.id].attempts == row.attempts
            && (row.state == Complete <==> outcome.Answered?)
            && (row.state == Pending <==> Transient(outcome) && w.attempts < 5)
            && (row.state == Failed <==>
                  outcome == InvalidInput || outcome == Unavailable(true) || (Transient(outcome) && w.attempts == 5))
            && row.result == (if outcome.Answered? || outcome.DnsFailed? then Some(Result(w.raw, outcome.body)) else None)
            && row.nextAt == clock + 20000 * w.attempts && row.sourceHash == s.db.rows[w.id].sourceHash
            && t == s.(db := s.db.(rows := s.db.rows[w.id := row]))
  {
    var w := s.issued[i];
    TokenIdentifies(s.issued, s.db.nextToken, w, LeaseOf(w.id, s.db.rows[w.id]));
  }

  /** Both statements of a finish with nobody in between: the guarded write; under a held lease but
      over a dead or changed source the row fails and keeps its result; without the lease nothing
      changes. Other rows never do. */
  lemma TwoStatements(s: Sys, i: nat, clock: nat, outcome: Outcome)
    requires Inv(s.db, s.issued) && i < |s.issued| && clock <= s.db.now && i !in s.owed
    ensures var w := s.issued[i];
            var first := Step(s, Finish(i, clock, outcome));
            && Inv(first.db, first.issued)
            && var t := Step(first, Fallback(i));
               && (FinishGuard(s.db, clock, w) ==> t == first)
               && (!FinishGuard(s.db, clock, w) && w.id in s.db.rows && LeaseHeld(s.db.rows[w.id], w, clock) ==>
                     && SourceBad(s.db, w.id) && t.db == s.db.(rows := s.db.rows[w.id := t.db.rows[w.id]])
                     && t.db.rows[w.id] == s.db.rows[w.id].(state := Failed, token := 0))
               && (!(w.id in s.db.rows && LeaseHeld(s.db.rows[w.id], w, clock)) ==> t.db == s.db)
  {
    StepKeeps(s, Finish(i, clock, outcome));
    hide FinalState, ResultOf, RowsOk, TokensFresh, SourcesOk;
  }

  // ------------------------------------------------------- failed for cause

  predicate SourceBad(db: Db, id: nat) {
    id in db.rows && id in db.sources && (!db.sources[id].live || db.sources[id].hash != db.rows[id].sourceHash)
  }

  /** Event `k` was a finish of claim `i` that met a dead or changed source. */
  ghost predicate MetBadSource(events: seq<Event>, k: nat, i: nat, id: nat) {
    k < |events| && events[k].Finish? && events[k].i == i && SourceBad(Exec(EMPTY, events[..k]).db, id)
  }

  lemma OwedStep(s: Sys, e: Event, i: nat)
    requires Inv(s.db, s.issued) && i in Step(s, e).owed
    ensures if e.Finish? && e.i == i && Enabled(s, e) && !FinishGuard(s.db, e.clock, s.issued[i])
            then Step(s, e) == s.(owed := s.owed[i := e.clock])
            else i in s.owed && s.owed[i] == Step(s, e).owed[i]
  {
    hide ClaimTx, SelectAnswer, FinishTx, FallbackTx;
  }

  lemma {:induction false} OwedIsIssued(events: seq<Event>, i: nat)
    requires i in Exec(EMPTY, events).owed
    ensures i < |Exec(EMPTY, events).issued|
    decreases |events|
  {
    var n := |events| - 1;
    var s := Exec(EMPTY, events[..n]);
    OwedStep(s, events[n], i);
    if i in s.owed { OwedIsIssued(events[..n], i); }
    IssuedKept(s, events[n], i);
  }

  /** A lease that is held was held before, unless it is new. */
  lemma HeldBefore(s: Sys, e: Event, w: Work, clock: nat)
    requires Inv(s.db, s.issued) && w.token < s.db.nextToken
    requires w.id in Step(s, e).db.rows && LeaseHeld(Step(s, e).db.rows[w.id], w, clock)
    ensures w.id in s.db.rows && LeaseHeld(s.db.rows[w.id], w, clock)
  {
    if Enabled(s, e) && e.Sweep? && w.id in s.db.rows { SweepOnRow(s, e.picked, w.id); }
  }

  /** A refused finish whose lease is held was refused for its source. */
  lemma RefusedForSource(db: Db, clock: nat, w: Work)
    requires Joined(db) && w.id in db.rows && LeaseHeld(db.rows[w.id], w, clock) && !FinishGuard(db, clock, w)
    ensures SourceBad(db, w.id)
  {}

  /** A finish still owes its second statement under a held lease only because it met a bad source. */
  lemma {:induction false} OwedForCause(events: seq<Event>, i: nat, w: Work) returns (k: nat)
    requires i in Exec(EMPTY, events).owed && i < |Exec(EMPTY, events).issued|
    requires Exec(EMPTY, events).issued[i] == w && w.id in Exec(EMPTY, events).db.rows
    requires LeaseHeld(Exec(EMPTY, events).db.rows[w.id], w, Exec(EMPTY, events).owed[i])
    ensures MetBadSource(events, k, i, w.id)
    decreases |events|
  {
    var n := |events| - 1;
    var s, e := Exec(EMPTY, events[..n]), events[n];
    assert Exec(EMPTY, events) == Step(s, e);
    OwedStep(s, e, i);
    hide Step, FinishGuard, LeaseHeld, SourceBad, RowsOk, SourcesOk, Exec;
    if e.Finish? && e.i == i && Enabled(s, e) && !FinishGuard(s.db, e.clock, s.issued[i]) {
      RefusedForSource(s.db, e.clock, w);
      k := n;
    } else {
      OwedIsIssued(events[..n], i);
      IssuedKept(s, e, i);
      HeldBefore(s, e, w, s.owed[i]);
      k := OwedForCause(events[..n], i, w);
      assert events[..n][..k] == events[..k];
    }
  }

  /** What made the row fail in this step. */
  ghost predicate Cause(events: seq<Event>, e: Event, id: nat) {
    var s := Exec(EMPTY, events);
    id in s.db.rows &&
    var row := s.db.rows[id];
    match e
    case Sweep(_) =>
      SourceBad(s.db, id) || (row.state == Running && row.attempts == 5 && row.leaseUntil < s.db.now)
    case Finish(i, _, outcome) =>
      && i < |s.issued| && s.issued[i] == LeaseOf(id, row) && !SourceBad(s.db, id)
      && (outcome == InvalidInput || outcome == Unavailable(true) || (Transient(outcome) && row.attempts == 5))
    case Fallback(i) =>
      && i < |s.issued| && s.issued[i] == LeaseOf(id, row)
      && exists k :: MetBadSource(events, k, i, id)
    case _ => false
  }

  /** Failed only for cause: in every execution a row becomes failed only in a sweep that finds its
      source dead or changed or its fifth lease expired, by its holder's permanent or invalid outcome
      or a transient one at the fifth attempt, or by its holder whose finish met a bad source. */
  lemma FailedForCause(events: seq<Event>, e: Event, id: nat)
    ensures var s := Exec(EMPTY, events);
            Fails(s, e, id) ==> Cause(events, e, id)
  {
    var s := Exec(EMPTY, events);
    if Fails(s, e, id) {
      match e
      case Sweep(picked) => SweepOnRow(s, picked, id);
      case Finish(i, clock, outcome) => HolderFails(s, e, id); FinishEffect(s, i, clock, outcome);
      case Fallback(i) =>
        HolderFails(s, e, id);
        var k := OwedForCause(events, i, s.issued[i]);
      case _ =>
    }
  }

  /** The step makes the row failed. */
  ghost predicate Fails(s: Sys, e: Event, id: nat)
    requires Joined(s.db)
  {
    && id in s.db.rows && s.db.rows[id].state != Failed
    && id in Step(s, e).db.rows && Step(s, e).db.rows[id].state == Failed
  }

  /** A row that fails in a finishing statement fails by its holder's. */
  lemma HolderFails(s: Sys, e: Event, id: nat)
    requires Inv(s.db, s.issued) && (e.Finish? || e.Fallback?) && Fails(s, e, id)
    ensures e.i < |s.issued| && s.issued[e.i] == LeaseOf(id, s.db.rows[id])
    ensures if e.Finish? then e.clock <= s.db.now && FinishGuard(s.db, e.clock, s.issued[e.i])
            else e.i in s.owed && LeaseHeld(s.db.rows[id], s.issued[e.i], s.owed[e.i])
  {
    TokenIdentifies(s.issued, s.db.nextToken, s.issued[e.i], LeaseOf(id, s.db.rows[id]));
  }

  // --------------------------------------------------------- completed rows

  /** Event `k` was a finish of the row's holder with an answer. */
  ghost predicate AnsweredAt(events: seq<Event>, k: nat, id: nat, body: nat) {
    && k < |events| && events[k].Finish? && events[k].outcome == Answered(body)
    && var s := Exec(EMPTY, events[..k]);
       (events[k].i < |s.issued| && s.issued[events[k].i].id == id
        && FinishGuard(s.db, events[k].clock, s.issued[events[k].i]))
  }

  /** A row becomes complete only by its holder's answer and is not rewritten while it is. */
  lemma CompletedBy(s: Sys, e: Event, id: nat)
    requires Inv(s.db, s.issued) && id in Step(s, e).db.rows && Step(s, e).db.rows[id].state == Complete
    ensures id in s.db.rows
    ensures if s.db.rows[id].state == Complete then Step(s, e).db.rows[id] == s.db.rows[id]
            else && e.Finish? && e.outcome.Answered? && e.i < |s.issued| && s.issued[e.i].id == id
                 && FinishGuard(s.db, e.clock, s.issued[e.i])
                 && Step(s, e).db.rows[id].result == Some(Result(s.issued[e.i].raw, e.outcome.body))
  {
    if Enabled(s, e) && e.Sweep? {
      assert Step(s, e).db.rows.Keys == s.db.rows.Keys;
      SweepOnRow(s, e.picked, id);
    }
  }

  /** Every complete row stores what its holder answered, for the very content it names. */
  lemma {:induction false} CompleteMeansAnswered(events: seq<Event>, id: nat) returns (k: nat, body: nat)
    requires id in Exec(EMPTY, events).db.rows && Exec(EMPTY, events).db.rows[id].state == Complete
    ensures AnsweredAt(events, k, id, body)
    ensures var row := Exec(EMPTY, events).db.rows[id]; row.result == Some(Result(row.sourceHash, body))
    decreases |events|
  {
    var n := |events| - 1;
    var s := Exec(EMPTY, events[..n]);
    CompletedBy(s, events[n], id);
    if s.db.rows[id].state == Complete {
      k, body := CompleteMeansAnswered(events[..n], id);
      assert events[..n][..k] == events[..k];
    } else {
      k, body := n, events[n].outcome.body;
    }
  }

  // ------------------------------------------------------------ left alone

  /** The step is the answer of the row's current holder. */
  predicate OwnAnswer(s: Sys, e: Event, id: nat)
    requires id in s.db.rows
  {
    && (e.Finish? || e.Fallback?) && e.i < |s.issued| && s.issued[e.i].id == id
    && s.db.rows[id].state == Running && s.issued[e.i].token == s.db.rows[id].token
  }

  lemma RestingStep(s: Sys, e: Event, id: nat)
    requires Inv(s.db, s.issued) && id in s.db.rows
    requires Rests(s.db.rows[id], s.db.sources[id], Step(s, e).db.now) && !Retries(e, id) && !OwnAnswer(s, e, id)
    ensures id in Step(s, e).db.rows && Step(s, e).db.rows[id] == s.db.rows[id] && s.db.now <= Step(s, e).db.now
  {
    if Enabled(s, e) && e.Sweep? { SweepOnRow(s, e.picked, id); }
  }

  /** Throughout the execution the row's source is live with the given content, nobody retries the
      row and its holder does not answer. */
  ghost predicate Undisturbed(s: Sys, events: seq<Event>, id: nat, hash: nat)
    requires Inv(s.db, s.issued)
  {
    forall k | 0 <= k < |events| :: QuietAt(s, events, k, id, hash)
  }

  ghost predicate QuietAt(s: Sys, events: seq<Event>, k: nat, id: nat, hash: nat)
    requires Inv(s.db, s.issued) && k < |events|
  {
    var before := Exec(s, events[..k]);
    && id in before.db.rows && before.db.sources[id].live && before.db.sources[id].hash == hash
    && !Retries(events[k], id) && !OwnAnswer(before, events[k], id)
  }

  /** A row that waits for its backoff or is under a live lease is left alone by everybody else until
      that time is over. */
  lemma {:induction false} RestingIsLeftAlone(s: Sys, events: seq<Event>, id: nat)
    requires Inv(s.db, s.issued) && id in s.db.rows && Undisturbed(s, events, id, s.db.rows[id].sourceHash)
    requires s.db.sources[id].live && s.db.sources[id].hash == s.db.rows[id].sourceHash
    requires Rests(s.db.rows[id], s.db.sources[id], Exec(s, events).db.now)
    ensures id in Exec(s, events).db.rows && Exec(s, events).db.rows[id] == s.db.rows[id]
    ensures s.db.now <= Exec(s, events).db.now
    decreases |events|
  {
    if events != [] {
      var n := |events| - 1;
      var before := Exec(s, events[..n]);
      TimeGrows(before, events[n]);
      forall k | 0 <= k < n ensures QuietAt(s, events[..n], k, id, s.db.rows[id].sourceHash) {
        assert events[..n][..k] == events[..k];
        assert QuietAt(s, events, k, id, s.db.rows[id].sourceHash);
      }
      RestingIsLeftAlone(s, events[..n], id);
      assert QuietAt(s, events, n, id, s.db.rows[id].sourceHash);
      RestingStep(before, events[n], id);
    }
  }

  lemma TimeGrows(s: Sys, e: Event)
    requires Inv(s.db, s.issued)
    ensures s.db.now <= Step(s, e).db.now
  {
    if Enabled(s, e) && e.Sweep? && e.picked != [] { SweepOnRow(s, e.picked, e.picked[0]); }
  }

  /** The next sweep may claim the row, with one more attempt and a lease of 90 seconds. */
  ghost predicate ClaimableNow(s: Sys, id: nat)
    requires Inv(s.db, s.issued) && id in s.db.rows
  {
    && Enabled(s, Sweep([id]))
    && var t := Step(s, Sweep([id]));
       (id in t.db.rows && t.db.rows[id].state == Running && t.db.rows[id].attempts == s.db.rows[id].attempts + 1
        && t.db.rows[id].leaseUntil == s.db.now + 90000 && t.db.rows[id].sourceHash == s.db.rows[id].sourceHash)
  }

  lemma RowIsClaimable(s: Sys, id: nat)
    requires Inv(s.db, s.issued) && id in s.db.rows && s.db.sources[id].live
    requires s.db.rows[id].sourceHash == s.db.sources[id].hash && s.db.rows[id].attempts < 5
    requires (s.db.rows[id].state == Pending && s.db.rows[id].nextAt <= s.db.now)
             || (s.db.rows[id].state == Running && s.db.rows[id].leaseUntil < s.db.now)
    ensures ClaimableNow(s, id)
  {
    SweepOnRow(s, [id], id);
  }

  /** A transient failure below the fifth attempt is retried: the row waits untouched for 20 seconds
      times its attempt, and once that time is over the next sweep can claim it. */
  lemma TransientIsRetried(s: Sys, i: nat, clock: nat, outcome: Outcome, events: seq<Event>)
    requires Inv(s.db, s.issued) && i < |s.issued| && clock <= s.db.now
    requires FinishGuard(s.db, clock, s.issued[i]) && Transient(outcome) && s.issued[i].attempts < 5
    requires var t := Step(s, Finish(i, clock, outcome));
             && Inv(t.db, t.issued) && Undisturbed(t, events, s.issued[i].id, s.db.rows[s.issued[i].id].sourceHash)
    ensures var w := s.issued[i];
            var t := Step(s, Finish(i, clock, outcome));
            var u := Exec(t, events);
            && (u.db.now < clock + 20000 * w.attempts ==>
                  && w.id in u.db.rows && u.db.rows[w.id] == t.db.rows[w.id] && u.db.rows[w.id].state == Pending
                  && forall picked | w.id in picked :: !Enabled(u, Sweep(picked)))
            && (w.id in u.db.rows && u.db.rows[w.id] == t.db.rows[w.id] && u.db.now >= clock + 20000 * w.attempts
                && u.db.sources[w.id].live && u.db.sources[w.id].hash == u.db.rows[w.id].sourceHash ==>
                  ClaimableNow(u, w.id))
  {
    var w := s.issued[i];
    var t := Step(s, Finish(i, clock, outcome));
    FinishEffect(s, i, clock, outcome);
    var u := Exec(t, events);
    hide Step, Inv, FinishGuard, Undisturbed;
    if u.db.now < clock + 20000 * w.attempts {
      RestingIsLeftAlone(t, events, w.id);
      NotSelected(u, w.id);
    } else if w.id in u.db.rows && u.db.rows[w.id] == t.db.rows[w.id]
              && u.db.sources[w.id].live && u.db.sources[w.id].hash == u.db.rows[w.id].sourceHash {
      RowIsClaimable(u, w.id);
    }
  }

  lemma NotSelected(s: Sys, id: nat)
    requires Joined(s.db) && id in s.db.rows && s.db.rows[id].state == Pending && s.db.now < s.db.rows[id].nextAt
    ensures forall picked | id in picked :: !Enabled(s, Sweep(picked))
  {
    forall picked | id in picked ensures !Enabled(s, Sweep(picked)) {
      var k :| 0 <= k < |picked| && picked[k] == id;
      assert !Claimable(SweepFailures(s.db).rows[picked[k]], s.db.sources[picked[k]], s.db.now);
    }
  }

  // ------------------------------------------------------------ fresh starts

  /** A manual retry gives exactly the failed rows, and the complete ones whose source changed, with
      a live materialized source, a fresh start on the present content; it touches no other row. */
  lemma RetryIsAFreshStart(s: Sys, ids: set<nat>, id: nat)
    requires Inv(s.db, s.issued) && id in s.db.rows
    ensures var (row, source) := (s.db.rows[id], s.db.sources[id]);
            var t := Step(s, Retry(ids));
            && Inv(t.db, t.issued) && id in t.db.rows
            && (if id in ids && source.live && source.materialized
                   && (row.state == Failed || (row.state == Complete && source.hash != row.sourceHash))
                then && t.db.rows[id].state == Pending && t.db.rows[id].attempts == 0
                     && t.db.rows[id].sourceHash == source.hash && t.db.rows[id].version == row.version
                     && ClaimableNow(t, id)
                else t.db.rows[id] == row)
  {
    RetryKeeps(s.db, s.issued, ids);
    var t := Step(s, Retry(ids));
    if t.db.rows[id] != s.db.rows[id] { RowIsClaimable(t, id); }
  }

  /** One sweep claims at most 20 rows, each once and all of one configuration version; one seeding adds
      at most 100 rows. */
  lemma BatchesAreBounded(s: Sys, picked: seq<nat>, ids: set<nat>, version: nat)
    requires Inv(s.db, s.issued)
    ensures Enabled(s, Sweep(picked)) ==>
              var t := Step(s, Sweep(picked));
              && s.issued <= t.issued && |t.issued| <= |s.issued| + 20
              && forall i, j | |s.issued| <= i < j < |t.issued| ::
                   t.issued[i].id != t.issued[j].id && t.issued[i].version == t.issued[j].version
    ensures Enabled(s, Seed(ids, version)) ==> |Step(s, Seed(ids, version)).db.rows| <= |s.db.rows| + 100
  {
    if Enabled(s, Sweep(picked)) {
      var swept := SweepFailures(s.db);
      SweepFailuresKeep(s.db, s.issued, picked);
      if picked != [] { OneVersion(swept, picked, swept.rows[picked[0]].version); }
    }
    if Enabled(s, Seed(ids, version)) {
      assert Step(s, Seed(ids, version)).db.rows.Keys == s.db.rows.Keys + ids;
      assert |s.db.rows.Keys + ids| <= |s.db.rows.Keys| + |ids|;
    }
  }

  lemma {:induction false} OneVersion(db: Db, picked: seq<nat>, version: nat)
    requires Joined(db) && Selected(db, picked)
    ensures var works := ClaimRows(db, picked, version).1;
            && |works| <= |picked| && (forall i | 0 <= i < |works| :: works[i].version == version && works[i].id in picked)
            && forall i, j | 0 <= i < j < |works| :: works[i].id != works[j].id
    decreases |picked|
  {
    if picked != [] {
      var n := |picked| - 1;
      OneVersion(db, picked[..n], version);
      assert picked == picked[..n] + [picked[n]] && picked[n] !in picked[..n];
    }
  }

  /** A seeded row can be claimed at once; rows that exist are not touched. */
  lemma SeedIsAFreshStart(s: Sys, ids: set<nat>, version: nat, id: nat)
    requires Inv(s.db, s.issued) && Enabled(s, Seed(ids, version)) && id in s.db.rows.Keys + ids
    ensures var t := Step(s, Seed(ids, version));
            && Inv(t.db, t.issued) && id in t.db.rows
            && (if id in s.db.rows then t.db.rows[id] == s.db.rows[id]
                else && t.db.rows[id].attempts == 0 && t.db.rows[id].version == version
                     && t.db.rows[id].sourceHash == s.db.sources[id].hash && ClaimableNow(t, id))
  {
    SeedKeeps(s.db, s.issued, ids, version);
    if id !in s.db.rows { RowIsClaimable(Step(s, Seed(ids, version)), id); }
  }
}

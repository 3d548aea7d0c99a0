/** What the callback path answers to the engine and to its workers, told from the history of a run:
    which payloads were posted, which claims were made and lost, which rows were completed. */
module CallbackAnswers {
  import opened Options
  import opened Runs
  import opened Callbacks
  import opened RunUpdates
  import opened CallbackProtocol
  import opened CallbackConvergence

  // ------------------------------------------------------------------ receipt

  /** The event posts a payload numbered `j` that passes the checks. */
  predicate Posts(e: Event, j: nat) {
    && e.Receive? && e.payload.seqNo == j
    && ReceiveChecks(e.payload.runId, j, e.bodyLength, e.authentic, Some(e.payload)) == None
  }

  /** Event `k` did so while the run was running. */
  ghost predicate Posted(events: seq<Event>, k: nat, j: nat) {
    k < |events| && Posts(events[k], j) && Exec(CREATED, events[..k]).db.run.status == Running
  }

  ghost predicate FirstPosted(events: seq<Event>, k: nat, j: nat) {
    Posted(events, k, j) && forall i: nat | i < k :: !Posted(events, i, j)
  }

  lemma PostedInPrefix(events: seq<Event>, n: nat, k: nat, j: nat)
    requires k < n <= |events|
    ensures Posted(events[..n], k, j) <==> Posted(events, k, j)
    ensures FirstPosted(events[..n], k, j) <==> FirstPosted(events, k, j)
  {
    forall i: nat | i <= k ensures Posted(events[..n], i, j) <==> Posted(events, i, j) {
      assert events[..n][..i] == events[..i];
    }
  }

  /** An execution, split around one event. */
  lemma SplitAt(events: seq<Event>, k: nat)
    requires k < |events|
    ensures Exec(CREATED, events) == Exec(Step(Exec(CREATED, events[..k]), events[k]), events[k + 1..])
  {
    hide Step, Exec;
    var first := events[..k + 1];
    LastStep(first);
    assert first[..k] == events[..k] && first[k] == events[k] && first + events[k + 1..] == events;
    ExecConcat(CREATED, first, events[k + 1..]);
  }

  lemma LastStep(events: seq<Event>)
    requires events != []
    ensures Exec(CREATED, events) == Step(Exec(CREATED, events[..|events|-1]), events[|events|-1])
  {
    hide Step;
  }

  lemma PostedIsStored(events: seq<Event>, k: nat, j: nat)
    requires Posted(events, k, j)
    ensures j in Exec(CREATED, events).db.inbox
  {
    SplitAt(events, k);
    RowsAreDurable(Step(Exec(CREATED, events[..k]), events[k]), events[k + 1..]);
  }

  /** Each stored row is the first payload posted with its number. */
  lemma {:induction false} StoredRow(events: seq<Event>, j: nat) returns (k: nat)
    requires j in Exec(CREATED, events).db.inbox
    ensures FirstPosted(events, k, j) && RowOf(Exec(CREATED, events).db.inbox[j], events[k].payload)
    decreases |events|
  {
    var n := |events| - 1;
    var s := Exec(CREATED, events[..n]);
    RowsDurableStep(s, events[n]);
    if j in s.db.inbox {
      k := StoredRow(events[..n], j);
      PostedInPrefix(events, n, k, j);
    } else {
      k := n;
      forall i: nat | i < n ensures !Posted(events, i, j) {
        PostedInPrefix(events, n, i, j);
        if Posted(events[..n], i, j) { PostedIsStored(events[..n], i, j); }
      }
    }
  }

  /** Every stored callback was posted with a legal phase and status, within the bounds of the contract,
      and with a count that is the number of its facts. */
  lemma StoredIsWellFormed(events: seq<Event>, j: nat) returns (k: nat)
    requires j in Exec(CREATED, events).db.inbox
    ensures FirstPosted(events, k, j) && 1 <= j <= 10000
    ensures var (p, row) := (events[k].payload, Exec(CREATED, events).db.inbox[j]);
            && p.runId != 0 && p.errorLength <= 1024 && p.factsWellFormed
            && p.assets <= 1000 && p.relations <= 1000 && p.exposures <= 1000 && p.organizations <= 500
            && p.filings <= 500 && p.providerErrors <= 100
            && row.count == p.assets + p.relations + p.exposures + p.organizations + p.filings <= 2000
            && row.hash == p.hash && row.phase == p.phase && row.status == p.status
            && (row.phase, row.status) in {(PhaseStarted, Running), (PhaseProgress, Running),
                 (PhaseCompleted, Success), (PhaseCompleted, Partial), (PhaseCompleted, Cancelled), (PhaseFailed, Failed)}
  {
    k := StoredRow(events, j);
    hide Exec;
  }

  /** The answer to a payload that passes the checks, from the history alone: against the first
      payload posted with its number if there is one, otherwise by whether the run is running. A
      refused or repeated payload changes nothing. */
  lemma AnswersFollowHistory(events: seq<Event>, p: Payload)
    ensures var db := Exec(CREATED, events).db;
            var (after, answer) := ReceiveTx(db, p);
            && (forall k: nat | FirstPosted(events, k, p.seqNo) ::
                  answer == if events[k].payload.hash == p.hash then Accepted(true) else PayloadConflict)
            && ((forall k: nat :: !Posted(events, k, p.seqNo)) ==>
                  answer == if db.run.status == Running then Accepted(false) else NotRunning)
            && (answer != Accepted(false) ==> after == db)
            && (answer == Accepted(false) ==>
                  && after == db.(inbox := after.inbox) && after.inbox.Keys == db.inbox.Keys + {p.seqNo}
                  && RowOf(after.inbox[p.seqNo], p) && after.inbox[p.seqNo].ingest == Waiting
                  && forall j | j in db.inbox :: after.inbox[j] == db.inbox[j])
  {
    var j := p.seqNo;
    if j in Exec(CREATED, events).db.inbox {
      var k := StoredRow(events, j);
      forall i: nat | FirstPosted(events, i, j) ensures i == k {
        assert !(i < k) && !(k < i);
      }
    } else {
      forall k: nat | Posted(events, k, j) ensures false { PostedIsStored(events, k, j); }
    }
  }

  /** Once a payload was accepted, posting it again is a duplicate in every continuation, closed runs
      included, and any other payload with its number is a conflict; neither changes anything. */
  lemma AcceptedForGood(events: seq<Event>, bodyLength: nat, p: Payload, more: seq<Event>, q: Payload)
    requires ReceiveChecks(p.runId, p.seqNo, bodyLength, true, Some(p)) == None
    requires ReceiveTx(Exec(CREATED, events).db, p).1.Accepted? && q.seqNo == p.seqNo
    ensures var db := Exec(Exec(CREATED, events + [Receive(bodyLength, true, p)]), more).db;
            ReceiveTx(db, q) == (db, if q.hash == p.hash then Accepted(true) else PayloadConflict)
  {
    var s, e := Exec(CREATED, events), Receive(bodyLength, true, p);
    assert (events + [e])[..|events|] == events;
    assert Exec(CREATED, events + [e]) == Step(s, e);
    AnswersFollowHistory(events, p);
    if p.seqNo in s.db.inbox { var k := StoredRow(events, p.seqNo); }
    assert Step(s, e).db.inbox[p.seqNo].hash == p.hash;
    RowsAreDurable(Step(s, e), more);
  }

  /** The checks before the transaction, and that an unsigned body is answered unread. */
  lemma ChecksMean(runId: nat, seqNo: nat, bodyLength: nat, authentic: bool, p: Option<Payload>, q: Option<Payload>)
    ensures var checks := ReceiveChecks(runId, seqNo, bodyLength, authentic, p);
            var named := runId > 0 && 1 <= seqNo <= 10000 && bodyLength > 0;
            && (checks == None <==>
                  && named && bodyLength <= 4 * 1024 * 1024 && authentic
                  && p.Some? && PayloadValid(p.value) && p.value.runId == runId && p.value.seqNo == seqNo)
            && (checks == Some(TooLarge) <==> named && bodyLength > 4 * 1024 * 1024)
            && (checks == Some(BadSignature) <==> named && bodyLength <= 4 * 1024 * 1024 && !authentic)
            && (checks.Some? ==> checks.value in {Rejected, TooLarge, BadSignature})
            && (!authentic ==> checks == ReceiveChecks(runId, seqNo, bodyLength, authentic, q))
  {}

  // --------------------------------------------------------------- completion

  /** The row a worker holds or is about to claim. */
  function RowOfWorker(u: Worker): Option<nat> {
    if u.Idle? then None else Some(u.seqNo)
  }

  /** A worker only ever deals with a stored row. */
  lemma {:induction false} WorkersHoldRows(events: seq<Event>, w: nat)
    ensures var s := Exec(CREATED, events);
            RowOfWorker(WorkerAt(s, w)).Some? ==> RowOfWorker(WorkerAt(s, w)).value in s.db.inbox
    decreases |events|
  {
    if events != [] {
      var n := |events| - 1;
      WorkersHoldRows(events[..n], w);
      RowsDurableStep(Exec(CREATED, events[..n]), events[n]);
    }
  }

  /** Event `k` was a completion that processed row `j`. */
  ghost predicate CompletedAt(events: seq<Event>, k: nat, j: nat) {
    && k < |events| && events[k].WorkerComplete?
    && WorkerAt(Exec(CREATED, events[..k]), events[k].w) == IngestedOk(j)
    && CompleteTx(Exec(CREATED, events[..k]).db, j).1.Done?
  }

  lemma CompletedInPrefix(events: seq<Event>, n: nat, k: nat, j: nat)
    requires k < n <= |events|
    ensures CompletedAt(events[..n], k, j) <==> CompletedAt(events, k, j)
  {
    assert events[..n][..k] == events[..k];
  }

  lemma DoneProcesses(db: Db, j: nat)
    requires DbInv(db) && CompleteTx(db, j).1.Done?
    ensures j in CompleteTx(db, j).0.inbox && CompleteTx(db, j).0.inbox[j].ingest == Processed
  {
    hide FinalStateOf;
  }

  lemma CompletedIsProcessed(events: seq<Event>, k: nat, j: nat)
    requires CompletedAt(events, k, j)
    ensures j in Exec(CREATED, events).db.inbox && Exec(CREATED, events).db.inbox[j].ingest == Processed
  {
    hide FinalStateOf, CompleteTx, DbInv;
    var s := Exec(CREATED, events[..k]);
    Reachable(events[..k]);
    DoneProcesses(s.db, j);
    SplitAt(events, k);
    RowsAreDurable(Step(s, events[k]), events[k + 1..]);
  }

  /** Only a completion processes a row. */
  lemma OnlyCompletionProcesses(s: Sys, e: Event, j: nat)
    requires DbInv(s.db) && j in Step(s, e).db.inbox && Step(s, e).db.inbox[j].ingest == Processed
    requires !(j in s.db.inbox && s.db.inbox[j].ingest == Processed)
    ensures e.WorkerComplete? && WorkerAt(s, e.w) == IngestedOk(j) && CompleteTx(s.db, j).1.Done?
  {
    if e.WorkerComplete? && WorkerAt(s, e.w).IngestedOk? { CompleteCases(s.db, WorkerAt(s, e.w).seqNo); }
  }

  lemma {:induction false} ProcessedWasCompleted(events: seq<Event>, j: nat) returns (k: nat)
    requires j in Exec(CREATED, events).db.inbox && Exec(CREATED, events).db.inbox[j].ingest == Processed
    ensures CompletedAt(events, k, j)
    decreases |events|
  {
    var n := |events| - 1;
    var s := Exec(CREATED, events[..n]);
    Reachable(events[..n]);
    if j in s.db.inbox && s.db.inbox[j].ingest == Processed {
      k := ProcessedWasCompleted(events[..n], j);
      CompletedInPrefix(events, n, k, j);
    } else {
      OnlyCompletionProcesses(s, events[n], j);
      k := n;
    }
  }

  /** A worker whose ingest succeeded is told that the row is processed already exactly when an
      earlier completion processed it; it is never told that the row is missing or that the final
      transition is illegal. Such an answer, and a busy one, changes nothing. */
  lemma AlreadyProcessedMeans(events: seq<Event>, w: nat, j: nat)
    requires WorkerAt(Exec(CREATED, events), w) == IngestedOk(j)
    ensures var db := Exec(CREATED, events).db;
            var (after, answer) := CompleteTx(db, j);
            && (answer == AlreadyProcessed <==> exists k: nat :: CompletedAt(events, k, j))
            && (answer == Busy <==> !answer.Done? && forall k: nat :: !CompletedAt(events, k, j))
            && (answer.Done? || answer == Busy || answer == AlreadyProcessed)
            && (!answer.Done? ==> after == db)
  {
    WorkersHoldRows(events, w);
    Reachable(events);
    var db := Exec(CREATED, events).db;
    CompleteCases(db, j);
    forall k: nat | CompletedAt(events, k, j) ensures db.inbox[j].ingest == Processed { CompletedIsProcessed(events, k, j); }
    if db.inbox[j].ingest == Processed { var k := ProcessedWasCompleted(events, j); }
  }

  /** After a completion was done, every later one of the row in any continuation is told so. */
  lemma ProcessedForGood(events: seq<Event>, w: nat, j: nat, more: seq<Event>)
    requires WorkerAt(Exec(CREATED, events), w) == IngestedOk(j)
    requires CompleteTx(Exec(CREATED, events).db, j).1.Done?
    ensures var db := Exec(Exec(CREATED, events + [WorkerComplete(w)]), more).db;
            CompleteTx(db, j) == (db, AlreadyProcessed) && ClaimTx(db, j) == (db, false)
  {
    var all := events + [WorkerComplete(w)] + more;
    assert all[..|events|] == events;
    assert CompletedAt(all, |events|, j);
    CompletedIsProcessed(all, |events|, j);
    ExecConcat(CREATED, events + [WorkerComplete(w)], more);
  }

  /** The step takes the row away from whoever claimed it: the sweep releases it or a worker whose
      ingest broke fails it. */
  predicate GivesUp(s: Sys, e: Event, j: nat) {
    && j in s.db.inbox && s.db.inbox[j].ingest == Processing
    && ((e.Release? && Abandoned(s.db.inbox[j], s.db.now)) || (e.WorkerFail? && WorkerAt(s, e.w) == IngestBroken(j)))
  }

  /** The step claims the row. */
  predicate TakesUp(s: Sys, e: Event, j: nat) {
    e.WorkerClaim? && WorkerAt(s, e.w) == Loaded(j) && ClaimTx(s.db, j).1
  }

  /** A row nobody works on, at its `attempt`. */
  predicate Resting(db: Db, j: nat, attempt: nat) {
    && j in db.inbox && (db.inbox[j].ingest == Waiting || db.inbox[j].ingest == IngestFailed)
    && db.inbox[j].attempt == attempt
  }

  lemma GivenUpRests(s: Sys, e: Event, j: nat)
    requires GivesUp(s, e, j)
    ensures Resting(Step(s, e).db, j, s.db.inbox[j].attempt) && (e.Release? ==> s.db.inbox[j].attempt < 10)
  {
    hide CompleteTx, ReceiveTx, Decide;
  }

  lemma RestsOn(s: Sys, e: Event, j: nat, attempt: nat)
    requires Resting(s.db, j, attempt) && !TakesUp(s, e, j)
    ensures Resting(Step(s, e).db, j, attempt)
  {
    hide FinalStateOf;
  }

  lemma {:induction false} RestsUntilTakenUp(s: Sys, more: seq<Event>, j: nat, attempt: nat)
    requires Resting(s.db, j, attempt)
    requires forall k | 0 <= k < |more| :: !TakesUp(Exec(s, more[..k]), more[k], j)
    ensures Resting(Exec(s, more).db, j, attempt)
    decreases |more|
  {
    if more != [] {
      var n := |more| - 1;
      forall k | 0 <= k < n ensures !TakesUp(Exec(s, more[..n][..k]), more[..n][k], j) {
        assert more[..n][..k] == more[..k];
      }
      RestsUntilTakenUp(s, more[..n], j, attempt);
      RestsOn(Exec(s, more[..n]), more[n], j, attempt);
    }
  }

  /** A completion whose row was failed or released since it was claimed, and not claimed again, is
      told that the row is busy and changes nothing; below ten attempts the row can be claimed at
      once, and a completion under that claim succeeds. The sweep releases only such rows. */
  lemma LostClaimIsBusy(events: seq<Event>, e: Event, more: seq<Event>, j: nat)
    requires GivesUp(Exec(CREATED, events), e, j)
    requires var t := Step(Exec(CREATED, events), e);
             forall k | 0 <= k < |more| :: !TakesUp(Exec(t, more[..k]), more[k], j)
    ensures var attempt := Exec(CREATED, events).db.inbox[j].attempt;
            var db := Exec(Step(Exec(CREATED, events), e), more).db;
            && CompleteTx(db, j) == (db, Busy)
            && (attempt < 10 ==> ClaimTx(db, j).1 && CompleteTx(ClaimTx(db, j).0, j).1.Done?)
            && (e.Release? ==> attempt < 10)
  {
    var s := Exec(CREATED, events);
    var attempt := s.db.inbox[j].attempt;
    GivenUpRests(s, e, j);
    hide Step, CompleteTx, DbInv, ClaimTx, Resting, TakesUp;
    RestsUntilTakenUp(Step(s, e), more, j, attempt);
    var all := events + [e] + more;
    assert (events + [e])[..|events|] == events;
    ExecConcat(CREATED, events + [e], more);
    Reachable(all);
    RestingAnswers(Exec(CREATED, all).db, j, attempt);
  }

  lemma RestingAnswers(db: Db, j: nat, attempt: nat)
    requires DbInv(db) && Resting(db, j, attempt)
    ensures CompleteTx(db, j) == (db, Busy)
    ensures attempt < 10 ==> ClaimTx(db, j).1 && CompleteTx(ClaimTx(db, j).0, j).1.Done?
  {
    RowStepsKeep(db, j);
    CompleteCases(ClaimTx(db, j).0, j);
  }

  /** What a completion says about the run: it closed the run iff the run was running and the inbox
      became ready; it reports a run closed already iff that run's status is not the verdict of the
      ready inbox. A closed run is left as it is, the row is processed all the same. */
  lemma WhatItSaysOfTheRun(events: seq<Event>, j: nat)
    ensures var db := Exec(CREATED, events).db;
            var (after, answer) := CompleteTx(db, j);
            answer.Done? ==>
              && after.inbox[j].ingest == Processed
              && (answer.finalized <==> db.run.status == Running && InboxReady(after.inbox))
              && (answer.runAlreadyClosed <==>
                    Closed(db.run.status) && InboxReady(after.inbox)
                    && db.run.status != after.inbox[EndOf(after.inbox)].status)
              && (Closed(db.run.status) ==> after.run == db.run)
  {
    Reachable(events);
    var db := Exec(CREATED, events).db;
    if j in db.inbox && db.inbox[j].ingest == Processing {
      var inbox := db.inbox[j := db.inbox[j].(ingest := Processed, touched := db.now)];
      LegalVerdict(inbox);
    }
  }

  /** Once a completion closed the run, no later completion contradicts it. */
  lemma FinalizedStands(events: seq<Event>, w: nat, j: nat, more: seq<Event>, i: nat)
    requires WorkerAt(Exec(CREATED, events), w) == IngestedOk(j)
    requires var answer := CompleteTx(Exec(CREATED, events).db, j).1; answer.Done? && answer.finalized
    ensures var answer := CompleteTx(Exec(CREATED, events + [WorkerComplete(w)] + more).db, i).1;
            answer.Done? ==> answer == Done(false, false)
  {
    var first, all := events + [WorkerComplete(w)], events + [WorkerComplete(w)] + more;
    Reachable(events);
    CompleteCases(Exec(CREATED, events).db, j);
    assert first[..|events|] == events;
    var closed := Exec(CREATED, first);
    assert closed.db == CompleteTx(Exec(CREATED, events).db, j).0;
    WhatItSaysOfTheRun(events, j);
    Reachable(first);
    LegalVerdict(closed.db.inbox);
    ReadyIsStable(first, more);
    ExecConcat(CREATED, first, more);
    ClosedRunsAreFrozen(closed, more);
    ReadyAfterCompletion(all, i);
  }

  /** A completion leaves a ready inbox ready, with the same marker. */
  lemma ReadyAfterCompletion(events: seq<Event>, i: nat)
    requires InboxReady(Exec(CREATED, events).db.inbox) && Closed(Exec(CREATED, events).db.run.status)
    requires var db := Exec(CREATED, events).db; db.run.status == db.inbox[EndOf(db.inbox)].status
    ensures var answer := CompleteTx(Exec(CREATED, events).db, i).1; answer.Done? ==> answer == Done(false, false)
  {
    var db := Exec(CREATED, events).db;
    WhatItSaysOfTheRun(events, i);
    if i in db.inbox && db.inbox[i].ingest == Processing {
      var inbox := db.inbox[i := db.inbox[i].(ingest := Processed, touched := db.now)];
      var k := EndOf(db.inbox);
      assert IsEnd(inbox, k);
      MarkerUnique(inbox, k, EndOf(inbox));
    }
  }

  /** The callback path never contradicts itself: a completion reports a run closed with another
      status only if something else closed the run. */
  lemma OnlyOthersContradict(events: seq<Event>, messages: Messages, j: nat)
    requires Sendable(messages) && CallbackOnly(events, messages)
    ensures var answer := CompleteTx(Exec(START, events).db, j).1; answer.Done? ==> !answer.runAlreadyClosed
  {
    StartOpen(messages);
    OpenReachable(START, events, messages);
    var db := Exec(START, events).db;
    if j in db.inbox && db.inbox[j].ingest == Processing && db.run.status != Running {
      var inbox := db.inbox[j := db.inbox[j].(ingest := Processed, touched := db.now)];
      var k := EndOf(db.inbox);
      assert IsEnd(inbox, k);
      FinalStateAt(inbox, k);
    }
  }

  // ------------------------------------------------------------------- claims

  predicate Works(u: Worker, j: nat) {
    u == Claimed(j) || u == IngestedOk(j) || u == IngestBroken(j)
  }

  ghost predicate NobodyElse(s: Sys, w: nat, j: nat) {
    forall v: nat | v != w :: !Works(WorkerAt(s, v), j)
  }

  /** Row `j` is under a claim not older than `since`, by nobody but `w`. */
  ghost predicate Taken(s: Sys, w: nat, j: nat, attempt: nat, since: nat) {
    && j in s.db.inbox && s.db.inbox[j].ingest == Processing && s.db.inbox[j].attempt == attempt
    && since <= s.db.inbox[j].touched && NobodyElse(s, w, j)
  }

  predicate Settles(e: Event, w: nat) {
    (e.WorkerFail? || e.WorkerComplete?) && e.w == w
  }

  lemma TakenStep(s: Sys, e: Event, w: nat, j: nat, attempt: nat, since: nat)
    requires Taken(s, w, j, attempt, since) && !Settles(e, w) && since <= s.db.now <= since + 300000
    ensures Taken(Step(s, e), w, j, attempt, since)
  {
    hide FinalStateOf;
    var t := Step(s, e);
    forall v: nat | v != w ensures !Works(WorkerAt(t, v), j) { assert !Works(WorkerAt(s, v), j); }
  }

  lemma TimeGrows(s: Sys, e: Event)
    ensures s.db.now <= Step(s, e).db.now
  {
    hide FinalStateOf;
  }

  lemma {:induction false} TakenUntil(s: Sys, more: seq<Event>, w: nat, j: nat, attempt: nat, since: nat)
    requires Taken(s, w, j, attempt, since) && since <= s.db.now
    requires Exec(s, more).db.now <= since + 300000 && forall e | e in more :: !Settles(e, w)
    ensures Taken(Exec(s, more), w, j, attempt, since) && since <= Exec(s, more).db.now
    decreases |more|
  {
    if more != [] {
      var n := |more| - 1;
      var before := Exec(s, more[..n]);
      TimeGrows(before, more[n]);
      assert forall e | e in more[..n] :: e in more;
      TakenUntil(s, more[..n], w, j, attempt, since);
      TakenStep(before, more[n], w, j, attempt, since);
    }
  }

  /** Worker `w` is about to claim the row, and no leftover worker deals with it. */
  ghost predicate FreshClaim(s: Sys, w: nat, j: nat) {
    WorkerAt(s, w) == Loaded(j) && ClaimTx(s.db, j).1 && NobodyElse(s, w, j)
  }

  /** Nobody but `w` can claim, release, fail or complete the row. */
  ghost predicate Guarded(s: Sys, w: nat, j: nat) {
    && j in s.db.inbox && s.db.inbox[j].ingest == Processing && NobodyElse(s, w, j)
    && ClaimTx(s.db, j) == (s.db, false) && ReleaseTx(s.db).inbox[j] == s.db.inbox[j]
  }

  /** A claim is exclusive for five minutes, whatever else happens. */
  lemma ClaimIsExclusive(events: seq<Event>, w: nat, j: nat, more: seq<Event>)
    requires FreshClaim(Exec(CREATED, events), w, j) && forall e | e in more :: !Settles(e, w)
    requires Exec(Step(Exec(CREATED, events), WorkerClaim(w)), more).db.now
             <= Exec(CREATED, events).db.now + 5 * 60 * 1000
    ensures Guarded(Exec(Step(Exec(CREATED, events), WorkerClaim(w)), more), w, j)
  {
    var s := Exec(CREATED, events);
    var attempt := s.db.inbox[j].attempt + 1;
    ClaimTakes(s, w, j);
    var claimed := Step(s, WorkerClaim(w));
    hide Step, Exec, ClaimTx, ReleaseTx, NobodyElse;
    TakenUntil(claimed, more, w, j, attempt, s.db.now);
    TakenAnswers(Exec(claimed, more), w, j, attempt, s.db.now);
  }

  /** After more than five minutes untouched, below ten attempts, anyone may claim or release it. */
  lemma StaleClaimIsFree(db: Db, j: nat)
    requires j in db.inbox && db.inbox[j].ingest == Processing
    ensures db.inbox[j].attempt < 10 && db.now > db.inbox[j].touched + 5 * 60 * 1000
            <==> ClaimTx(db, j).1
    ensures ReleaseTx(db).inbox[j].ingest == (if ClaimTx(db, j).1 then Waiting else Processing)
  {}

  /** Enqueueing a callback anew puts off the takeover of a claim by five minutes and nothing else: a
      row that waits or failed stays as claimable as it was. */
  lemma EnqueuePutsOff(db: Db, j: nat, millis: nat)
    requires j in db.inbox && db.inbox[j].ingest != Processed
    ensures var after := EnqueuedTx(db, j);
            && after == db.(inbox := db.inbox[j := db.inbox[j].(touched := after.inbox[j].touched)])
            && (ClaimTx(after.(now := db.now + millis), j).1 <==>
                  db.inbox[j].attempt < 10 && (db.inbox[j].ingest == Processing ==> millis > 5 * 60 * 1000))
  {}

  lemma ClaimTakes(s: Sys, w: nat, j: nat)
    requires WorkerAt(s, w) == Loaded(j) && ClaimTx(s.db, j).1 && NobodyElse(s, w, j)
    ensures Taken(Step(s, WorkerClaim(w)), w, j, s.db.inbox[j].attempt + 1, s.db.now)
    ensures Step(s, WorkerClaim(w)).db.now == s.db.now
  {
    hide CompleteTx, ReceiveTx, Decide;
    var t := Step(s, WorkerClaim(w));
    forall v: nat | v != w ensures !Works(WorkerAt(t, v), j) { assert !Works(WorkerAt(s, v), j); }
  }

  lemma TakenAnswers(s: Sys, w: nat, j: nat, attempt: nat, since: nat)
    requires Taken(s, w, j, attempt, since) && s.db.now <= since + 300000
    ensures Guarded(s, w, j)
  {}
}

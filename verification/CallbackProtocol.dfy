/** One run as a concurrent system: receipts, workers, the recovery sweep and run updaters, and
    what every reachable state satisfies. */
module CallbackProtocol {
  import opened Options
  import opened Runs
  import opened Callbacks
  import opened RunUpdates

  /** Where one execution of IngestHandler.Handle stands. */
  datatype Worker =
    | Idle
    | Loaded(seqNo: nat)
    | Claimed(seqNo: nat)
    | IngestedOk(seqNo: nat)
    | IngestBroken(seqNo: nat)

  /** Where one execution of a run change stands. */
  datatype Updater =
    | Free
    | Fetched(loaded: Run)
    | Wants(change: Change)
    | HasRead(change: Change, before: Run)

  datatype Sys = Sys(db: Db, workers: map<nat, Worker>, updaters: map<nat, Updater>)

  datatype Event =
    | Receive(bodyLength: nat, authentic: bool, payload: Payload)
    | Tick(millis: nat)
    | Enqueued(seqNo: nat)
    | Release
    | WorkerLoad(w: nat, seqNo: nat)
    | WorkerClaim(w: nat)
    | WorkerIngest(w: nat, ok: bool)
    | WorkerFail(w: nat)
    | WorkerComplete(w: nat)
    | WorkerCrash(w: nat)
    | UpdaterBegin(u: nat, change: Change)
    | ReconcileFetch(u: nat)
    | ReconcileDecide(u: nat, active: bool, timeout: bool, engine: EngineStatus, count: nat,
                      pulled: Option<Summary>)
    | UpdaterRead(u: nat)
    | UpdaterCommit(u: nat)
    | UpdaterCrash(u: nat)

  function WorkerAt(s: Sys, w: nat): Worker {
    if w in s.workers then s.workers[w] else Idle
  }

  function UpdaterAt(s: Sys, u: nat): Updater {
    if u in s.updaters then s.updaters[u] else Free
  }

  ghost function Step(s: Sys, e: Event): Sys {
    match e
    case Receive(bodyLength, authentic, p) =>
      if ReceiveChecks(p.runId, p.seqNo, bodyLength, authentic, Some(p)).Some? then s
      else s.(db := ReceiveTx(s.db, p).0)
    case Tick(millis) => s.(db := s.db.(now := s.db.now + millis))
    case Enqueued(seqNo) => s.(db := EnqueuedTx(s.db, seqNo))
    case Release => s.(db := ReleaseTx(s.db))
    case WorkerLoad(w, seqNo) =>
      if WorkerAt(s, w) == Idle && seqNo in s.db.inbox && s.db.inbox[seqNo].ingest != Processed
      then s.(workers := s.workers[w := Loaded(seqNo)]) else s
    case WorkerClaim(w) =>
      if !WorkerAt(s, w).Loaded? then s
      else
        var (db, claimed) := ClaimTx(s.db, WorkerAt(s, w).seqNo);
        s.(db := db, workers := s.workers[w := if claimed then Claimed(WorkerAt(s, w).seqNo) else Idle])
    case WorkerIngest(w, ok) =>
      if !WorkerAt(s, w).Claimed? then s
      else
        var seqNo := WorkerAt(s, w).seqNo;
        s.(workers := s.workers[w := if ok then IngestedOk(seqNo) else IngestBroken(seqNo)])
    case WorkerFail(w) =>
      if !WorkerAt(s, w).IngestBroken? then s
      else s.(db := FailTx(s.db, WorkerAt(s, w).seqNo), workers := s.workers[w := Idle])
    case WorkerComplete(w) =>
      if !WorkerAt(s, w).IngestedOk? then s
      else s.(db := CompleteTx(s.db, WorkerAt(s, w).seqNo).0, workers := s.workers[w := Idle])
    case WorkerCrash(w) => s.(workers := s.workers[w := Idle])
    case UpdaterBegin(u, change) =>
      if UpdaterAt(s, u) == Free && !change.Record? then s.(updaters := s.updaters[u := Wants(change)])
      else s
    case ReconcileFetch(u) =>
      if UpdaterAt(s, u) == Free && s.db.run.status == Running
      then s.(updaters := s.updaters[u := Fetched(s.db.run)]) else s
    case ReconcileDecide(u, active, timeout, engine, count, pulled) =>
      if !UpdaterAt(s, u).Fetched? then s
      else
        var change := Decide(s.db.inbox, UpdaterAt(s, u).loaded, active, timeout, engine, count, pulled);
        s.(updaters := s.updaters[u := if change == None then Free else Wants(change.value)])
    case UpdaterRead(u) =>
      if !UpdaterAt(s, u).Wants? then s
      else s.(updaters := s.updaters[u := HasRead(UpdaterAt(s, u).change, s.db.run)])
    case UpdaterCommit(u) =>
      if !UpdaterAt(s, u).HasRead? then s
      else s.(db := s.db.(run := Commit(s.db.run, UpdaterAt(s, u).before, UpdaterAt(s, u).change)),
              updaters := s.updaters[u := Free])
    case UpdaterCrash(u) => s.(updaters := s.updaters[u := Free])
  }

  ghost function Exec(s: Sys, events: seq<Event>): Sys
    decreases |events|
  {
    if events == [] then s
    else Step(Exec(s, events[..|events|-1]), events[|events|-1])
  }

  const CREATED := Sys(Db(Run(Pending, 0, 0, 0), map[], {}, 0), map[], map[])

  lemma {:induction false} ExecConcat(s: Sys, a: seq<Event>, b: seq<Event>)
    ensures Exec(s, a + b) == Exec(Exec(s, a), b)
    decreases |b|
  {
    if b == [] {
      assert a + b == a;
    } else {
      ExecConcat(s, a, b[..|b|-1]);
      assert (a + b)[..|a + b|-1] == a + b[..|b|-1];
    }
  }

  // ---------------------------------------------------------------- counting

  /** The sum of the counts of the rows of `chosen` numbered at most `n`. */
  ghost function Tally(inbox: Inbox, chosen: set<nat>, n: nat): nat {
    if n == 0 then 0
    else Tally(inbox, chosen, n - 1) + if n in chosen && n in inbox then inbox[n].count else 0
  }

  ghost function Total(inbox: Inbox, chosen: set<nat>): nat {
    Tally(inbox, chosen, MAX_SEQ)
  }

  ghost function ProcessedRows(inbox: Inbox): set<nat> {
    set j | j in inbox && inbox[j].ingest == Processed
  }

  lemma {:induction false} TallySame(a: Inbox, b: Inbox, chosen: set<nat>, n: nat)
    requires forall j | j in chosen :: j in a && j in b && a[j].count == b[j].count
    ensures Tally(a, chosen, n) == Tally(b, chosen, n)
    decreases n
  {
    if n != 0 { TallySame(a, b, chosen, n - 1); }
  }

  lemma {:induction false} TallyAdd(inbox: Inbox, chosen: set<nat>, j: nat, n: nat)
    requires j in inbox && j !in chosen
    ensures Tally(inbox, chosen + {j}, n) == Tally(inbox, chosen, n) + if 1 <= j <= n then inbox[j].count else 0
    decreases n
  {
    if n != 0 { TallyAdd(inbox, chosen, j, n - 1); }
  }

  lemma {:induction false} TallyBound(inbox: Inbox, chosen: set<nat>, n: nat)
    requires forall j | j in inbox :: inbox[j].count <= MAX_FACTS
    ensures Tally(inbox, chosen, n) <= n * MAX_FACTS
    decreases n
  {
    if n != 0 { TallyBound(inbox, chosen, n - 1); }
  }

  // --------------------------------------------------------------- invariant

  predicate RowOk(j: nat, c: Callback) {
    && c.seqNo == j && 1 <= j <= MAX_SEQ
    && LegalPair(c.phase, c.status) && c.count <= MAX_FACTS
    && c.attempt <= MAX_ATTEMPTS
    && (c.ingest == Waiting ==> c.attempt < MAX_ATTEMPTS)
    && (c.ingest != Waiting ==> 1 <= c.attempt)
  }

  ghost predicate DbInv(db: Db) {
    && (forall j | j in db.inbox :: RowOk(j, db.inbox[j]))
    && db.counted <= ProcessedRows(db.inbox)
    && (db.run.status == Pending ==>
          db.inbox == map[] && db.run.resultCount == 0 && db.run.lifecyclePasses == 0)
    && (db.run.status == Running ==>
          && !InboxReady(db.inbox)
          && db.counted == ProcessedRows(db.inbox)
          && db.run.resultCount == Total(db.inbox, db.counted)
          && db.run.lifecyclePasses == 0)
    && db.run.lifecyclePasses <= 1
    && (db.run.lifecyclePasses == 1 ==> db.run.status == Success || db.run.status == Partial)
  }

  lemma NotReadyMonotone(before: Inbox, after: Inbox)
    requires !InboxReady(before)
    requires forall j | j in before :: j in after && after[j].phase == before[j].phase
    requires forall j | j in after && after[j].ingest == Processed ::
               j in before && before[j].ingest == Processed
    ensures !InboxReady(after)
  {
    forall k | IsEnd(after, k) ensures false {
      assert after[k].ingest == Processed;
      assert IsEnd(before, k);
    }
  }

  /** A step that neither processes a row nor forgets or rewrites one keeps the inbox facts. */
  lemma UnprocessedStep(before: Db, after: Db)
    requires DbInv(before) && after.run == before.run && after.counted == before.counted
    requires forall j | j in after.inbox :: RowOk(j, after.inbox[j])
    requires ProcessedRows(after.inbox) == ProcessedRows(before.inbox)
    requires forall j | j in before.inbox :: j in after.inbox
               && after.inbox[j].phase == before.inbox[j].phase && after.inbox[j].count == before.inbox[j].count
    requires before.run.status == Pending ==> after.inbox == map[]
    ensures DbInv(after)
  {
    if before.run.status == Running {
      assert forall j | j in after.inbox && after.inbox[j].ingest == Processed :: j in ProcessedRows(after.inbox);
      NotReadyMonotone(before.inbox, after.inbox);
      TallySame(before.inbox, after.inbox, before.counted, MAX_SEQ);
    }
  }

  lemma ReceiveKeeps(db: Db, bodyLength: nat, authentic: bool, p: Payload)
    requires DbInv(db) && ReceiveChecks(p.runId, p.seqNo, bodyLength, authentic, Some(p)) == None
    ensures DbInv(ReceiveTx(db, p).0)
  {
    var after := ReceiveTx(db, p).0;
    if after != db {
      assert ProcessedRows(after.inbox) == ProcessedRows(db.inbox);
      UnprocessedStep(db, after);
    }
  }

  lemma RowStepsKeep(db: Db, seqNo: nat)
    requires DbInv(db)
    ensures DbInv(ClaimTx(db, seqNo).0) && DbInv(FailTx(db, seqNo)) && DbInv(EnqueuedTx(db, seqNo))
  {
    assert ProcessedRows(ClaimTx(db, seqNo).0.inbox) == ProcessedRows(db.inbox);
    UnprocessedStep(db, ClaimTx(db, seqNo).0);
    assert ProcessedRows(FailTx(db, seqNo).inbox) == ProcessedRows(db.inbox);
    UnprocessedStep(db, FailTx(db, seqNo));
    assert ProcessedRows(EnqueuedTx(db, seqNo).inbox) == ProcessedRows(db.inbox);
    UnprocessedStep(db, EnqueuedTx(db, seqNo));
  }

  lemma ReleaseKeeps(db: Db)
    requires DbInv(db)
    ensures DbInv(ReleaseTx(db))
  {
    assert ProcessedRows(ReleaseTx(db).inbox) == ProcessedRows(db.inbox);
    UnprocessedStep(db, ReleaseTx(db));
  }

  /** Marking one processing row processed and counting it keeps the tally. */
  lemma CountingStep(db: Db, seqNo: nat, inbox: Inbox)
    requires DbInv(db) && db.run.status == Running
    requires seqNo in db.inbox && db.inbox[seqNo].ingest == Processing
    requires inbox == db.inbox[seqNo := db.inbox[seqNo].(ingest := Processed, touched := db.now)]
    ensures db.counted + {seqNo} == ProcessedRows(inbox)
    ensures Total(inbox, db.counted + {seqNo}) == db.run.resultCount + db.inbox[seqNo].count
  {
    assert seqNo !in db.counted;
    TallySame(db.inbox, inbox, db.counted, MAX_SEQ);
    TallyAdd(inbox, db.counted, seqNo, MAX_SEQ);
  }

  lemma LegalVerdict(inbox: Inbox)
    requires forall j | j in inbox :: LegalPair(inbox[j].phase, inbox[j].status)
    ensures !FinalStateOf(inbox).BadTransition?
    ensures FinalStateOf(inbox).NotReady? <==> !InboxReady(inbox)
  {
    if InboxReady(inbox) { var k := EndOf(inbox); }
  }

  lemma CompleteKeeps(db: Db, seqNo: nat)
    requires DbInv(db)
    ensures DbInv(CompleteTx(db, seqNo).0)
  {
    if seqNo in db.inbox && db.inbox[seqNo].ingest == Processing {
      var inbox := db.inbox[seqNo := db.inbox[seqNo].(ingest := Processed, touched := db.now)];
      LegalVerdict(inbox);
      assert ProcessedRows(inbox) == ProcessedRows(db.inbox) + {seqNo};
      if db.run.status == Running { CountingStep(db, seqNo, inbox); }
    }
  }

  lemma CommitKeeps(db: Db, before: Run, change: Change)
    requires DbInv(db)
    ensures DbInv(db.(run := Commit(db.run, before, change)))
  {
    if db.run.status == Pending {
      assert ProcessedRows(db.inbox) == {};
      forall k | IsEnd(db.inbox, k) ensures false {}
      TallySame(db.inbox, db.inbox, {}, MAX_SEQ);
      EmptyTally(MAX_SEQ);
    }
  }

  lemma {:induction false} EmptyTally(n: nat)
    ensures Tally(map[], {}, n) == 0
    decreases n
  {
    if n != 0 { EmptyTally(n - 1); }
  }

  lemma StepKeeps(s: Sys, e: Event)
    requires DbInv(s.db)
    ensures DbInv(Step(s, e).db)
  {
    match e
    case Receive(bodyLength, authentic, p) =>
      if ReceiveChecks(p.runId, p.seqNo, bodyLength, authentic, Some(p)) == None {
        ReceiveKeeps(s.db, bodyLength, authentic, p);
      }
    case Enqueued(seqNo) => RowStepsKeep(s.db, seqNo);
    case Release => ReleaseKeeps(s.db);
    case WorkerClaim(w) => if WorkerAt(s, w).Loaded? { RowStepsKeep(s.db, WorkerAt(s, w).seqNo); }
    case WorkerFail(w) => if WorkerAt(s, w).IngestBroken? { RowStepsKeep(s.db, WorkerAt(s, w).seqNo); }
    case WorkerComplete(w) => if WorkerAt(s, w).IngestedOk? { CompleteKeeps(s.db, WorkerAt(s, w).seqNo); }
    case UpdaterCommit(u) =>
      if UpdaterAt(s, u).HasRead? { CommitKeeps(s.db, UpdaterAt(s, u).before, UpdaterAt(s, u).change); }
    case _ =>
  }

  /** No step moves a closed run: neither its status, nor its count, nor its lifecycle passes. */
  lemma ClosedFrozenStep(s: Sys, e: Event)
    requires Closed(s.db.run.status)
    ensures Step(s, e).db.run == s.db.run
  {}

  // ------------------------------------------------------------ main results

  /** Every reachable state of the system satisfies the invariant. */
  lemma {:induction false} Reachable(events: seq<Event>)
    ensures DbInv(Exec(CREATED, events).db)
    decreases |events|
  {
    if events == [] {
      EmptyTally(MAX_SEQ);
    } else {
      Reachable(events[..|events|-1]);
      StepKeeps(Exec(CREATED, events[..|events|-1]), events[|events|-1]);
    }
  }

  /** A run that closed stays exactly as it closed, whatever happens afterwards. */
  lemma {:induction false} ClosedRunsAreFrozen(s: Sys, events: seq<Event>)
    requires Closed(s.db.run.status)
    ensures Exec(s, events).db.run == s.db.run
    decreases |events|
  {
    if events != [] {
      ClosedRunsAreFrozen(s, events[..|events|-1]);
      ClosedFrozenStep(Exec(s, events[..|events|-1]), events[|events|-1]);
    }
  }

  /** Every step of every execution leaves the status alone or follows one edge of the life graph;
      the lifecycle pass commits only together with a close as success or partial, once. */
  lemma LifePath(events: seq<Event>, e: Event)
    ensures var s := Exec(CREATED, events);
            var after := Step(s, e).db.run;
            && (after.status == s.db.run.status || LifeEdge(s.db.run.status, after.status))
            && (after.lifecyclePasses != s.db.run.lifecyclePasses ==>
                  && s.db.run.status == Running && (after.status == Success || after.status == Partial)
                  && s.db.run.lifecyclePasses == 0 && after.lifecyclePasses == 1)
  {
    Reachable(events);
    var s := Exec(CREATED, events);
    StepKeeps(s, e);
    match e
    case WorkerComplete(w) =>
      if WorkerAt(s, w).IngestedOk? { CompleteCases(s.db, WorkerAt(s, w).seqNo); }
    case _ =>
  }

  /** What a completion may do to a reachable database: change nothing, process one row, or process
      it and close the run with the verdict of the finished prefix. */
  lemma CompleteCases(db: Db, seqNo: nat)
    requires DbInv(db)
    ensures var (after, outcome) := CompleteTx(db, seqNo);
            && outcome != FinalTransitionError
            && (outcome.Done? <==> seqNo in db.inbox && db.inbox[seqNo].ingest == Processing)
            && (!outcome.Done? ==> after == db)
            && (outcome.Done? && !outcome.finalized ==> after.run.status == db.run.status)
            && (outcome.Done? && outcome.finalized ==>
                  && db.run.status == Running && InboxReady(after.inbox)
                  && var k := EndOf(after.inbox);
                     && after.run.status == after.inbox[k].status
                     && after.run.resultCount == Total(after.inbox, ProcessedRows(after.inbox))
                     && after.run.lifecyclePasses ==
                          (if after.run.status == Success || after.run.status == Partial then 1 else 0))
  {
    if seqNo in db.inbox && db.inbox[seqNo].ingest == Processing {
      var inbox := db.inbox[seqNo := db.inbox[seqNo].(ingest := Processed, touched := db.now)];
      LegalVerdict(inbox);
      assert ProcessedRows(inbox) == ProcessedRows(db.inbox) + {seqNo};
      if db.run.status == Running { CountingStep(db, seqNo, inbox); }
    }
  }

  /** While a run is running: its inbox is not ready, and its count is the sum over exactly the
      processed callbacks, well inside 64 bits. */
  lemma RunningConserves(events: seq<Event>)
    requires Exec(CREATED, events).db.run.status == Running
    ensures var db := Exec(CREATED, events).db;
            && !InboxReady(db.inbox)
            && db.counted == ProcessedRows(db.inbox)
            && db.run.resultCount == Total(db.inbox, ProcessedRows(db.inbox)) <= 20000000
  {
    Reachable(events);
    var db := Exec(CREATED, events).db;
    TallyBound(db.inbox, db.counted, MAX_SEQ);
  }

  /** One step counts at most one callback, never one already counted, and by its own count. */
  lemma CountedOnce(events: seq<Event>, e: Event)
    ensures var before := Exec(CREATED, events).db;
            var after := Step(Exec(CREATED, events), e).db;
            && before.counted <= after.counted
            && (after.counted != before.counted ==>
                  exists j :: j in before.inbox && j !in before.counted && after.counted == before.counted + {j}
                    && before.run.status == Running && before.inbox[j].ingest == Processing
                    && after.inbox[j].ingest == Processed
                    && after.run.resultCount == before.run.resultCount + before.inbox[j].count)
  {
    Reachable(events);
    var s := Exec(CREATED, events);
    var after := Step(s, e).db;
    if after.counted != s.db.counted {
      assert e.WorkerComplete?;
      var j := WorkerAt(s, e.w).seqNo;
      CompleteCases(s.db, j);
      assert j !in s.db.counted;
      assert after.counted == s.db.counted + {j};
    }
  }

  /** Rows are never lost or rewritten: hash, phase, status and count are those of the receipt,
      and a processed row stays processed. */
  lemma {:induction false} RowsAreDurable(s: Sys, events: seq<Event>)
    ensures forall j | j in s.db.inbox ::
              var inbox := Exec(s, events).db.inbox;
              && j in inbox && inbox[j].hash == s.db.inbox[j].hash && inbox[j].phase == s.db.inbox[j].phase
              && inbox[j].status == s.db.inbox[j].status && inbox[j].count == s.db.inbox[j].count
              && (s.db.inbox[j].ingest == Processed ==> inbox[j].ingest == Processed)
    decreases |events|
  {
    if events != [] {
      RowsAreDurable(s, events[..|events|-1]);
      var t := Exec(s, events[..|events|-1]);
      var e := events[|events|-1];
      RowsDurableStep(t, e);
    }
  }

  lemma RowsDurableStep(s: Sys, e: Event)
    ensures forall j | j in s.db.inbox ::
              var inbox := Step(s, e).db.inbox;
              && j in inbox && inbox[j].hash == s.db.inbox[j].hash && inbox[j].phase == s.db.inbox[j].phase
              && inbox[j].status == s.db.inbox[j].status && inbox[j].count == s.db.inbox[j].count
              && (s.db.inbox[j].ingest == Processed ==> inbox[j].ingest == Processed)
  {}

  /** Once ready, an inbox keeps its marker and verdict: no later event can reopen or change it. */
  lemma ReadyIsStable(events: seq<Event>, more: seq<Event>)
    requires InboxReady(Exec(CREATED, events).db.inbox)
    ensures InboxReady(Exec(CREATED, events + more).db.inbox)
    ensures EndOf(Exec(CREATED, events + more).db.inbox) == EndOf(Exec(CREATED, events).db.inbox)
    ensures FinalStateOf(Exec(CREATED, events + more).db.inbox) == FinalStateOf(Exec(CREATED, events).db.inbox)
  {
    var s := Exec(CREATED, events);
    Reachable(events);
    Reachable(events + more);
    ExecConcat(CREATED, events, more);
    RowsAreDurable(s, more);
    var inbox, later := s.db.inbox, Exec(s, more).db.inbox;
    var k := EndOf(inbox);
    assert IsEnd(later, k);
    MarkerUnique(later, k, EndOf(later));
  }

  /** A passive reconciler that decides success or partial success after seeing a non-empty inbox
      decides about a run that is closed already, so nothing it or anyone does afterwards moves
      the run: a run a passive reconciler closes that way had an empty inbox when it looked. */
  lemma PassiveSuccessOverInboxIsVoid(events: seq<Event>, u: nat, timeout: bool, engine: EngineStatus,
                                      count: nat, more: seq<Event>)
    requires var s := Exec(CREATED, events);
             && UpdaterAt(s, u).Fetched? && s.db.inbox != map[]
             && var change := Decide(s.db.inbox, UpdaterAt(s, u).loaded, false, timeout, engine, count, None);
                change.Some? && change.value.Record?
                && (change.value.target == Success || change.value.target == Partial)
    ensures Closed(Exec(CREATED, events).db.run.status)
    ensures Exec(CREATED, events + [ReconcileDecide(u, false, timeout, engine, count, None)] + more).db.run
            == Exec(CREATED, events).db.run
  {
    Reachable(events);
    var s := Exec(CREATED, events);
    LegalVerdict(s.db.inbox);
    var all := [ReconcileDecide(u, false, timeout, engine, count, None)] + more;
    assert events + [ReconcileDecide(u, false, timeout, engine, count, None)] + more == events + all;
    ExecConcat(CREATED, events, all);
    ClosedRunsAreFrozen(s, all);
  }

  const DISPATCHED := [UpdaterBegin(0, Dispatch(7)), UpdaterRead(0), UpdaterCommit(0)]
  const DECIDED := [ReconcileFetch(0), ReconcileDecide(0, false, false, EngineSuccess, 0, None)]

  lemma RaceDispatched()
    ensures Exec(CREATED, DISPATCHED) == Sys(Db(Run(Running, 0, 7, 0), map[], {}, 0), map[], map[0 := Free])
  {
    ThreeSteps(CREATED, DISPATCHED);
  }

  lemma RaceDecided()
    ensures Exec(CREATED, DISPATCHED + DECIDED)
            == Sys(Db(Run(Running, 0, 7, 0), map[], {}, 0), map[], map[0 := Wants(Record(Success, 0, false))])
  {
    RaceDispatched();
    ExecConcat(CREATED, DISPATCHED, DECIDED);
    TwoSteps(Exec(CREATED, DISPATCHED), DECIDED);
  }

  /** The remaining window: an inbox that was empty when the passive reconciler looked may have
      received a callback before the run closes, and the run succeeds over it. */
  lemma EmptyInboxRace(p: Payload)
    requires PayloadValid(p) && p.seqNo <= MAX_SEQ
    ensures exists events :: var db := Exec(CREATED, events).db;
              db.run.status == Success && p.seqNo in db.inbox && db.inbox[p.seqNo].ingest == Waiting
  {
    RaceDecided();
    var close := [Receive(1, true, p), UpdaterRead(0), UpdaterCommit(0)];
    var decided := Exec(CREATED, DISPATCHED + DECIDED);
    ThreeSteps(decided, close);
    ExecConcat(CREATED, DISPATCHED + DECIDED, close);
    assert Exec(CREATED, DISPATCHED + DECIDED + close).db.run.status == Success;
  }

  lemma TwoSteps(s: Sys, events: seq<Event>)
    requires |events| == 2
    ensures Exec(s, events) == Step(Step(s, events[0]), events[1])
  {
    assert events[..1][..0] == [] && Exec(s, events[..1]) == Step(Exec(s, []), events[0]);
  }

  lemma ThreeSteps(s: Sys, events: seq<Event>)
    requires |events| == 3
    ensures Exec(s, events) == Step(Step(Step(s, events[0]), events[1]), events[2])
  {
    TwoSteps(s, events[..2]);
  }
}

/** The worker's sequence for one callback, and that it is an execution of the protocol. */
module IngestHandler {
  import opened Options
  import opened Runs
  import opened Callbacks
  import opened RunUpdates
  import opened CallbackProtocol

  datatype HandleResult = Unknown | Nothing | NotClaimed | IngestError | CompletionError | Handled(finalized: bool)

  /** Handle after its lookup, from whatever state the tables are in by then: a refused claim is a
      success if the row has been processed meanwhile. */
  ghost function ProcessTx(db: Db, seqNo: nat, ingestOk: bool): (Db, HandleResult)
    requires seqNo in db.inbox
  {
    if !ClaimTx(db, seqNo).1 then
      (db, if db.inbox[seqNo].ingest == Processed then Nothing else NotClaimed)
    else if !ingestOk then (FailTx(ClaimTx(db, seqNo).0, seqNo), IngestError)
    else
      var (after, outcome) := CompleteTx(ClaimTx(db, seqNo).0, seqNo);
      (after, if outcome.Done? then Handled(outcome.finalized) else CompletionError)
  }

  /** What one undisturbed call of Handle does to the tables. */
  ghost function HandleTx(db: Db, seqNo: nat, ingestOk: bool): (Db, HandleResult) {
    if seqNo == 0 || seqNo !in db.inbox then (db, Unknown)
    else if db.inbox[seqNo].ingest == Processed then (db, Nothing)
    else ProcessTx(db, seqNo, ingestOk)
  }

  class Handler {
    const store: RunStore

    constructor (store: RunStore)
      ensures this.store == store
    {
      this.store := store;
    }

    /** IngestHandler.Handle: look up, then process. */
    method Handle(seqNo: nat, ingestOk: bool) returns (r: HandleResult)
      requires store.Valid()
      modifies store
      ensures store.Valid() && (store.State(), r) == HandleTx(old(store.State()), seqNo, ingestOk)
    {
      if seqNo == 0 || seqNo !in store.inbox { return Unknown; }
      if store.inbox[seqNo].ingest == Processed { return Nothing; }
      r := Process(seqNo, ingestOk);
    }

    /** The rest of Handle: claim, ingest, then fail or complete. */
    method Process(seqNo: nat, ingestOk: bool) returns (r: HandleResult)
      requires store.Valid() && seqNo in store.inbox
      modifies store
      ensures store.Valid() && (store.State(), r) == ProcessTx(old(store.State()), seqNo, ingestOk)
    {
      hide FinalStateOf;
      var claimed := store.ClaimDiscoveryCallbackIngest(seqNo);
      if !claimed {
        return if store.inbox[seqNo].ingest == Processed then Nothing else NotClaimed;
      }
      if !ingestOk {
        store.FailDiscoveryCallbackIngest(seqNo);
        return IngestError;
      }
      var outcome := store.CompleteDiscoveryCallbackIngest(seqNo);
      return if outcome.Done? then Handled(outcome.finalized) else CompletionError;
    }
  }

  /** The protocol events of one call by worker `w`. */
  function CallOf(w: nat, seqNo: nat, ingestOk: bool): seq<Event> {
    [WorkerLoad(w, seqNo), WorkerClaim(w), WorkerIngest(w, ingestOk)]
    + [if ingestOk then WorkerComplete(w) else WorkerFail(w)]
  }

  lemma NoRowZero(s: Sys, seqNo: nat)
    requires DbInv(s.db)
    ensures seqNo == 0 ==> seqNo !in s.db.inbox
  {}

  /** Run without interruption, a call is exactly these four protocol steps: so whatever holds of
      every interleaving of steps holds of calls. */
  lemma CallIsProtocolRun(s: Sys, w: nat, seqNo: nat, ingestOk: bool)
    requires WorkerAt(s, w) == Idle && DbInv(s.db)
    ensures Exec(s, CallOf(w, seqNo, ingestOk)).db == HandleTx(s.db, seqNo, ingestOk).0
    ensures WorkerAt(Exec(s, CallOf(w, seqNo, ingestOk)), w) == Idle
  {
    NoRowZero(s, seqNo);
    var events := CallOf(w, seqNo, ingestOk);
    assert events[..3] == [WorkerLoad(w, seqNo), WorkerClaim(w), WorkerIngest(w, ingestOk)];
    ThreeSteps(s, events[..3]);
    assert Exec(s, events) == Step(Exec(s, events[..3]), events[3]);
    hide Exec, FinalStateOf, DbInv;
    var loaded := Step(s, events[0]);
    var claimed := Step(loaded, events[1]);
  }

  /** Whatever others did between the lookup and the claim: a call never completes with an error in
      a reachable state, it claims nothing exactly when the row is processed or not claimable, and
      it closes the run only with the verdict of a fully processed prefix. */
  lemma CallsCompleteCleanly(events: seq<Event>, seqNo: nat)
    requires seqNo in Exec(CREATED, events).db.inbox
    ensures var db := Exec(CREATED, events).db;
            var (after, r) := ProcessTx(db, seqNo, true);
            && r != CompletionError
            && (r.Handled? <==> Claimable(db.inbox[seqNo], db.now))
            && (r == Nothing <==> db.inbox[seqNo].ingest == Processed)
            && (r.Handled? ==> after.inbox[seqNo].ingest == Processed)
            && (r.Handled? && r.finalized ==>
                  && InboxReady(after.inbox)
                  && after.run.status == after.inbox[EndOf(after.inbox)].status)
  {
    Reachable(events);
    var db := Exec(CREATED, events).db;
    RowStepsKeep(db, seqNo);
    CompleteCases(ClaimTx(db, seqNo).0, seqNo);
  }

  /** What a call answers without ingesting: a callback that is not stored is unknown, a processed one
      needs nothing, one that cannot be claimed is left to others; none of them changes anything. */
  lemma IdleCalls(events: seq<Event>, seqNo: nat, ingestOk: bool)
    ensures var db := Exec(CREATED, events).db;
            var (after, r) := HandleTx(db, seqNo, ingestOk);
            && (r == Unknown <==> seqNo !in db.inbox)
            && (r == Nothing <==> seqNo in db.inbox && db.inbox[seqNo].ingest == Processed)
            && (r == NotClaimed <==>
                  seqNo in db.inbox && db.inbox[seqNo].ingest != Processed && !Claimable(db.inbox[seqNo], db.now))
            && (r == Unknown || r == Nothing || r == NotClaimed ==> after == db)
  {
    Reachable(events);
    NoRowZero(Exec(CREATED, events), seqNo);
    hide Exec, FinalStateOf, DbInv;
  }

  /** A call whose ingest broke is refused on the same rows; otherwise it ends in that error, the row
      failed with one more attempt and everything else as it was. */
  lemma BrokenCallsFailTheRow(events: seq<Event>, seqNo: nat)
    requires seqNo in Exec(CREATED, events).db.inbox
    ensures var db := Exec(CREATED, events).db;
            var (after, r) := ProcessTx(db, seqNo, false);
            var row := db.inbox[seqNo];
            && (r == IngestError <==> Claimable(row, db.now))
            && (r == Nothing <==> row.ingest == Processed)
            && (r != IngestError ==> after == db && (r == Nothing || r == NotClaimed))
            && (r == IngestError ==>
                  && after == db.(inbox := db.inbox[seqNo := after.inbox[seqNo]])
                  && after.inbox[seqNo] == row.(ingest := IngestFailed, attempt := row.attempt + 1, touched := db.now))
  {
    Reachable(events);
    hide Exec, FinalStateOf;
  }
}

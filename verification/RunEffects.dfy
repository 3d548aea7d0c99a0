/** What one run change does to the stored run when nobody comes in between, and when somebody does. */
module RunEffects {
  import opened Options
  import opened Runs
  import opened Callbacks
  import opened RunUpdates
  import opened CallbackProtocol

  lemma FourSteps(s: Sys, events: seq<Event>)
    requires |events| == 4
    ensures Exec(s, events) == Step(Step(Step(Step(s, events[0]), events[1]), events[2]), events[3])
  {
    hide Step;
    ThreeSteps(s, events[..3]);
  }

  /** reconcileRun by updater `u`: load the run, ask the engine and decide, read again, write. */
  function Reconcile(u: nat, active: bool, timeout: bool, engine: EngineStatus, count: nat,
                     pulled: Option<Summary>): seq<Event>
  {
    [ReconcileFetch(u), ReconcileDecide(u, active, timeout, engine, count, pulled), UpdaterRead(u), UpdaterCommit(u)]
  }

  /** The status a closed engine job stands for. */
  function Reported(engine: EngineStatus): RunStatus
    requires engine != EngineRunning
  {
    match engine
    case EngineSuccess => Success
    case EnginePartial => Partial
    case EngineFailed => Failed
    case EngineCancelled => Cancelled
  }

  /** The engine's answer does not end the collection yet: the job runs, or a passive job is over but
      callbacks it sent are not all ingested. */
  predicate StillCollecting(db: Db, active: bool, engine: EngineStatus) {
    || engine == EngineRunning
    || (!active && (engine == EngineSuccess || engine == EnginePartial) && db.inbox != map[])
  }

  /** An active run's results could not be pulled, or a success misses a target. */
  predicate ResultsMissing(active: bool, engine: EngineStatus, pulled: Option<Summary>) {
    active && engine != EngineRunning
    && (pulled == None
        || (engine == EngineSuccess
            && (pulled.value.finishedTargets < pulled.value.totalTargets
                || pulled.value.finishedTargets > pulled.value.totalTargets
                || pulled.value.targets != pulled.value.totalTargets)))
  }

  /** What a reconciliation should make of the run `before`. */
  predicate Reconciled(db: Db, active: bool, timeout: bool, engine: EngineStatus, count: nat,
                       pulled: Option<Summary>, after: Run)
  {
    var before := db.run;
    if before.status != Running || before.jobId == 0 then after == before
    else if StillCollecting(db, active, engine) then
      after == if timeout then before.(status := Failed) else before
    else if ResultsMissing(active, engine, pulled) then after == before
    else
      && after.status == Reported(engine) && after.jobId == before.jobId
      && after.resultCount == (if engine == EngineCancelled then before.resultCount
                               else if active then pulled.value.facts else count)
      && after.lifecyclePasses == if active && (engine == EngineSuccess || engine == EnginePartial) then 1 else 0
  }

  /** The effect of an undisturbed reconciliation in every reachable state: a run that is not running
      or has no job stays; while results are still being collected the run stays, or fails with its
      stored count on a timeout; missing results leave it running; otherwise it gets the reported
      status, the count of the pulled facts (active) or of the engine (passive) unless it was
      cancelled, and a lifecycle pass exactly for an active success or partial success. Nothing else
      in the database changes. */
  lemma ReconcileEffect(events: seq<Event>, u: nat, active: bool, timeout: bool, engine: EngineStatus,
                        count: nat, pulled: Option<Summary>)
    requires UpdaterAt(Exec(CREATED, events), u) == Free
    ensures var db := Exec(CREATED, events).db;
            var after := Exec(Exec(CREATED, events), Reconcile(u, active, timeout, engine, count, pulled)).db;
            after == db.(run := after.run) && Reconciled(db, active, timeout, engine, count, pulled, after.run)
  {
    Reachable(events);
    var s := Exec(CREATED, events);
    ReconcileSteps(s, u, active, timeout, engine, count, pulled);
    hide Exec;
    DecisionEffect(s.db, active, timeout, engine, count, pulled);
  }

  /** The run after a decision taken and carried out on it with nobody in between. */
  ghost function CarriedOut(db: Db, active: bool, timeout: bool, engine: EngineStatus, count: nat,
                            pulled: Option<Summary>): Run
  {
    var change := Decide(db.inbox, db.run, active, timeout, engine, count, pulled);
    if db.run.status != Running || change == None then db.run else Commit(db.run, db.run, change.value)
  }

  lemma DecisionEffect(db: Db, active: bool, timeout: bool, engine: EngineStatus, count: nat, pulled: Option<Summary>)
    requires DbInv(db)
    ensures Reconciled(db, active, timeout, engine, count, pulled,
                       CarriedOut(db, active, timeout, engine, count, pulled))
  {
    LegalVerdict(db.inbox);
    var running, ready := db.run.status == Running, InboxReady(db.inbox);
    assert running ==> !ready && db.run.lifecyclePasses == 0;
    hide FinalStateOf, InboxReady, DbInv;
  }

  lemma ReconcileSteps(s: Sys, u: nat, active: bool, timeout: bool, engine: EngineStatus, count: nat,
                       pulled: Option<Summary>)
    requires UpdaterAt(s, u) == Free
    ensures Exec(s, Reconcile(u, active, timeout, engine, count, pulled)).db
            == s.db.(run := CarriedOut(s.db, active, timeout, engine, count, pulled))
  {
    FourSteps(s, Reconcile(u, active, timeout, engine, count, pulled));
    hide Exec, Decide, Commit;
  }

  /** An operator's or dispatcher's change by updater `u`. */
  function Update(u: nat, change: Change): seq<Event> {
    [UpdaterBegin(u, change), UpdaterRead(u), UpdaterCommit(u)]
  }

  /** The effect of an undisturbed dispatch, failed dispatch or operator change: exactly the moves of
      the life of a run, each with what it stores; everything else changes nothing. */
  lemma UpdateEffect(s: Sys, u: nat, change: Change)
    requires UpdaterAt(s, u) == Free && !change.Record?
    ensures var run := s.db.run;
            var after := Exec(s, Update(u, change)).db;
            && after == s.db.(run := after.run)
            && match change
               case Dispatch(jobId) =>
                 after.run == if run.status == Pending then run.(status := Running, jobId := jobId) else run
               case DispatchFail => after.run == if run.status == Pending then run.(status := Failed) else run
               case Mark(target, count) =>
                 && (run.status == Pending && (target == Running || target == Cancelled) ==>
                       after.run == run.(status := target))
                 && (run.status == Running && target == Cancelled ==> after.run == run.(status := Cancelled))
                 && (run.status == Running && (target == Success || target == Partial || target == Failed) ==>
                       after.run == run.(status := target, resultCount := count))
                 && (Closed(run.status) || target == Pending || target == run.status ==> after == s.db)
                 && (run.status == Pending && target != Running && target != Cancelled ==> after == s.db)
               case Record(_, _, _) => true
  {
    ThreeSteps(s, Update(u, change));
    hide Exec;
  }

  /** A change whose run was moved between its read and its write changes nothing and is over. */
  lemma LostRaceIsVoid(s: Sys, u: nat)
    requires UpdaterAt(s, u).HasRead? && UpdaterAt(s, u).before.status != s.db.run.status
    ensures Step(s, UpdaterCommit(u)).db == s.db && UpdaterAt(Step(s, UpdaterCommit(u)), u) == Free
  {
    hide Decide;
  }
}

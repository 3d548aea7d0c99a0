/** Changes to a run made outside the callback path: dispatch, operators, the reconciler. */
module RunUpdates {
  import opened Options
  import opened Runs
  import opened Callbacks

  datatype EngineStatus =
    EngineRunning | EngineSuccess | EnginePartial | EngineFailed | EngineCancelled

  /** A change whose transaction reads the run first and updates it under a guard afterwards. */
  datatype Change =
    | Dispatch(jobId: nat)
    | DispatchFail
    | Mark(target: RunStatus, count: nat)
    | Record(target: RunStatus, count: nat, lifecycle: bool)

  /** The second half of such a transaction: `before` is what its first statement read, `run` the
      row its guarded UPDATE finds. A guard that no longer holds leaves the row alone. */
  function Commit(run: Run, before: Run, change: Change): Run {
    match change
    case Dispatch(jobId) =>
      if before.status == Pending && run.status == Pending
      then run.(status := Running, jobId := jobId) else run
    case DispatchFail =>
      if before.status == Pending && run.status == Pending then run.(status := Failed) else run
    case Mark(target, count) =>
      MarkOrKeep(run, before.status, target, count)
    case Record(target, count, lifecycle) =>
      if before.status == target then run
      else
        var marked := MarkRun(run, before.status, target, count);
        if marked == None then run
        else if lifecycle && (target == Success || target == Partial)
        then marked.value.(lifecyclePasses := run.lifecyclePasses + 1)
        else marked.value
  }

  function MarkOrKeep(run: Run, from: RunStatus, to: RunStatus, count: nat): Run {
    var marked := MarkRun(run, from, to, count);
    if marked == None then run else marked.value
  }

  /** What reconcileRun decides from the engine's answer and its own reading of the inbox; None is
      an error or a run left running. `pulled` is the answer of the result pull of an active
      run; a success is refused unless every target is in it. */
  ghost function Decide(inbox: Inbox, loaded: Run, active: bool, timeout: bool,
                        engine: EngineStatus, count: nat, pulled: Option<Summary>): Option<Change>
  {
    var passiveEnd := !active && (engine == EngineSuccess || engine == EnginePartial);
    if loaded.status != Running || loaded.jobId == 0 then None
    else if passiveEnd && inbox != map[] && FinalStateOf(inbox).BadTransition? then None
    else if passiveEnd && inbox != map[] && FinalStateOf(inbox).NotReady? then
      if timeout then Some(Record(Failed, loaded.resultCount, false)) else None
    else if active && engine != EngineRunning && pulled == None then None
    else if active && engine == EngineSuccess && !Complete(pulled.value) then None
    else
      var total := if active && engine != EngineRunning then pulled.value.facts else count;
      match engine
      case EngineSuccess => Some(Record(Success, total, active))
      case EnginePartial => Some(Record(Partial, total, active))
      case EngineFailed => Some(Record(Failed, total, false))
      case EngineCancelled => Some(Record(Cancelled, total, false))
      case EngineRunning =>
        if timeout then Some(Record(Failed, loaded.resultCount, false)) else None
  }

  /** The service methods, run against the stored tables. */
  class RunService {
    const store: RunStore

    constructor (store: RunStore)
      ensures this.store == store
    {
      this.store := store;
    }

    /** reconcileRun up to the recorded status: list the inbox, ask for its final state, decide. */
    method ReconcileRun(loaded: Run, active: bool, timeout: bool, engine: EngineStatus, count: nat,
                        pulled: Option<Summary>) returns (change: Option<Change>)
      requires store.Valid()
      ensures change == Decide(store.inbox, loaded, active, timeout, engine, count, pulled)
    {
      if loaded.status != Running || loaded.jobId == 0 { return None; }
      if !active && (engine == EngineSuccess || engine == EnginePartial) {
        var callbacks := store.ListCallbacks();
        assert store.inbox != map[] ==> exists j :: j in store.inbox && store.inbox[j] in callbacks;
        if |callbacks| > 0 {
          assert callbacks[0].seqNo in store.inbox;
          var final := CallbackFinalState(callbacks, store.inbox);
          if final.BadTransition? { return None; }
          if final.NotReady? {
            if timeout { return Some(Record(Failed, loaded.resultCount, false)); }
            return None;
          }
        }
      }
      var resultCount, activeResultLifecycle := count, false;
      if active && engine != EngineRunning {
        if pulled == None { return None; }
        if engine == EngineSuccess
           && (pulled.value.finishedTargets != pulled.value.totalTargets
               || pulled.value.targets != pulled.value.totalTargets) {
          return None;
        }
        resultCount := pulled.value.facts;
        activeResultLifecycle := engine == EngineSuccess || engine == EnginePartial;
      }
      match engine {
        case EngineSuccess => return Some(Record(Success, resultCount, activeResultLifecycle));
        case EnginePartial => return Some(Record(Partial, resultCount, activeResultLifecycle));
        case EngineFailed => return Some(Record(Failed, resultCount, false));
        case EngineCancelled => return Some(Record(Cancelled, resultCount, false));
        case EngineRunning =>
          if timeout { return Some(Record(Failed, loaded.resultCount, false)); }
          return None;
      }
    }

    /** The remainder of recordRunStatusWithLifecycle after its first read: the lifecycle pass and
        the guarded update stand or fall together. */
    method RecordRunStatusWithLifecycle(before: Run, target: RunStatus, resultCount: nat,
                                        applyLifecycle: bool)
      modifies store`run
      ensures store.run == Commit(old(store.run), before, Record(target, resultCount, applyLifecycle))
    {
      if before.status == target { return; }
      var saved := store.run;
      if applyLifecycle && (target == Success || target == Partial) {
        store.run := store.run.(lifecyclePasses := store.run.lifecyclePasses + 1);
      }
      var marked := MarkRun(store.run, before.status, target, resultCount);
      if marked == None {
        store.run := saved;
      } else {
        store.run := marked.value;
      }
    }

    /** recordRunDispatched after its first read. */
    method RecordRunDispatched(before: Run, jobId: nat)
      modifies store`run
      ensures store.run == Commit(old(store.run), before, Dispatch(jobId))
    {
      if before.status == Running && before.jobId == jobId { return; }
      if before.status != Pending { return; }
      if store.run.status == before.status {
        store.run := store.run.(status := Running, jobId := jobId);
      }
    }

    /** recordRunDispatchFailed after its first read. */
    method RecordRunDispatchFailed(before: Run)
      modifies store`run
      ensures store.run == Commit(old(store.run), before, DispatchFail)
    {
      if before.status != Pending { return; }
      if store.run.status == before.status { store.run := store.run.(status := Failed); }
    }

    /** changeTaskRunStatus after its first read. */
    method ChangeTaskRunStatus(before: Run, target: RunStatus, resultCount: nat)
      modifies store`run
      ensures store.run == Commit(old(store.run), before, Mark(target, resultCount))
    {
      if !TransitionAllowed(before.status, target) { return; }
      if store.run.status != before.status { return; }
      match target {
        case Running => store.run := store.run.(status := Running);
        case Success => store.run := store.run.(status := Success, resultCount := resultCount);
        case Partial => store.run := store.run.(status := Partial, resultCount := resultCount);
        case Failed => store.run := store.run.(status := Failed, resultCount := resultCount);
        case Cancelled => store.run := store.run.(status := Cancelled);
        case Pending => return;
      }
    }
  }
}

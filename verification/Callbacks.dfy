/** The durable callback inbox of one run: receipt, claim, release, failure, completion. */
module Callbacks {
  import opened Options
  import opened Runs

  const MAX_SEQ := 10000
  const MAX_FACTS := 2000
  const MAX_ATTEMPTS := 10
  const STALE_MILLIS := 300000

  datatype Phase = PhaseStarted | PhaseProgress | PhaseCompleted | PhaseFailed | PhaseUnknown

  datatype IngestStatus = Waiting | Processing | Processed | IngestFailed

  /** A discovery_callback row; `touched` is its updated_at column. */
  datatype Callback = Callback(
    seqNo: nat, phase: Phase, status: RunStatus, hash: nat, count: nat,
    ingest: IngestStatus, attempt: nat, touched: nat)

  type Inbox = map<nat, Callback>

  /** The rows one run's transactions read and write. `counted` records the sequence numbers
      whose result count has been added to the run. */
  datatype Db = Db(run: Run, inbox: Inbox, counted: set<nat>, now: nat)

  // ---------------------------------------------------------------- payloads

  /** A decoded callback body: the fields the receipt path decides on. `factsWellFormed` stands
      for the per-fact field checks. */
  datatype Payload = Payload(
    runId: nat, seqNo: nat, phase: Phase, status: RunStatus, resultCount: nat, hash: nat,
    assets: nat, relations: nat, exposures: nat, organizations: nat, filings: nat,
    providerErrors: nat, errorLength: nat, factsWellFormed: bool)

  function FactCount(p: Payload): nat {
    p.assets + p.relations + p.exposures + p.organizations + p.filings
  }

  /** The phase/status pairs the engine contract allows. */
  predicate LegalPair(phase: Phase, status: RunStatus) {
    match phase
    case PhaseStarted => status == Running
    case PhaseProgress => status == Running
    case PhaseCompleted => status == Success || status == Partial || status == Cancelled
    case PhaseFailed => status == Failed
    case PhaseUnknown => false
  }

  /** validateCallbackPayload, check by check. */
  method ValidateCallbackPayload(p: Payload) returns (ok: bool)
    ensures ok <==> PayloadValid(p)
  {
    if p.runId == 0 || p.seqNo == 0 || p.errorLength > 1024 { return false; }
    match p.phase {
      case PhaseStarted => if p.status != Running { return false; }
      case PhaseProgress => if p.status != Running { return false; }
      case PhaseCompleted =>
        if p.status != Success && p.status != Partial && p.status != Cancelled { return false; }
      case PhaseFailed => if p.status != Failed { return false; }
      case PhaseUnknown => return false;
    }
    if p.assets > 1000 || p.relations > 1000 || p.exposures > 1000 || p.providerErrors > 100
       || p.organizations > 500 || p.filings > 500 {
      return false;
    }
    var factCount := p.assets + p.relations + p.exposures + p.organizations + p.filings;
    if factCount > MAX_FACTS || p.resultCount != factCount { return false; }
    return p.factsWellFormed;
  }

  predicate PayloadValid(p: Payload) {
    && p.runId != 0 && p.seqNo != 0 && p.errorLength <= 1024
    && LegalPair(p.phase, p.status)
    && p.assets <= 1000 && p.relations <= 1000 && p.exposures <= 1000
    && p.organizations <= 500 && p.filings <= 500 && p.providerErrors <= 100
    && p.resultCount == FactCount(p) <= MAX_FACTS
    && p.factsWellFormed
  }

  // ------------------------------------------------------------- final state

  datatype FinalState = NotReady | Ready(status: RunStatus) | BadTransition

  predicate FinalPhase(phase: Phase) {
    phase == PhaseCompleted || phase == PhaseFailed
  }

  /** `k` is the authoritative end: the lowest-numbered final-phase row. */
  ghost predicate IsMarker(inbox: Inbox, k: nat) {
    && k in inbox && FinalPhase(inbox[k].phase)
    && forall j | j in inbox && FinalPhase(inbox[j].phase) :: k <= j
  }

  /** Nothing at or below `k` is missing or unprocessed. */
  ghost predicate PrefixProcessed(inbox: Inbox, k: nat) {
    && (forall j | 1 <= j <= k :: j in inbox)
    && (forall j | j in inbox && j <= k :: inbox[j].ingest == Processed)
  }

  ghost predicate IsEnd(inbox: Inbox, k: nat) {
    IsMarker(inbox, k) && PrefixProcessed(inbox, k)
  }

  ghost predicate InboxReady(inbox: Inbox) {
    exists k :: IsEnd(inbox, k)
  }

  function Verdict(phase: Phase, status: RunStatus): FinalState {
    if phase == PhaseCompleted && (status == Success || status == Partial || status == Cancelled)
    then Ready(status)
    else if phase == PhaseFailed && status == Failed then Ready(Failed)
    else BadTransition
  }

  /** What callbackFinalState means: the verdict of the marker once its prefix is processed. */
  ghost function FinalStateOf(inbox: Inbox): FinalState {
    if InboxReady(inbox)
    then var k := EndOf(inbox); Verdict(inbox[k].phase, inbox[k].status)
    else NotReady
  }

  ghost function EndOf(inbox: Inbox): (k: nat)
    requires InboxReady(inbox)
    ensures IsEnd(inbox, k)
  {
    var k :| IsEnd(inbox, k); k
  }

  lemma MarkerUnique(inbox: Inbox, j: nat, k: nat)
    requires IsMarker(inbox, j) && IsMarker(inbox, k)
    ensures j == k
  {}

  lemma FinalStateAt(inbox: Inbox, k: nat)
    requires IsEnd(inbox, k)
    ensures FinalStateOf(inbox) == Verdict(inbox[k].phase, inbox[k].status)
  {
    MarkerUnique(inbox, EndOf(inbox), k);
  }

  /** `rows` is the result of listing the inbox, in whatever order. */
  ghost predicate Lists(rows: seq<Callback>, inbox: Inbox) {
    && (forall c | c in rows :: c.seqNo in inbox && inbox[c.seqNo] == c)
    && (forall j | j in inbox :: inbox[j] in rows && inbox[j].seqNo == j)
  }

  /** callbackFinalState: one pass for the marker, one for its prefix, one for gaps. */
  method CallbackFinalState(callbacks: seq<Callback>, ghost inbox: Inbox) returns (r: FinalState)
    requires Lists(callbacks, inbox)
    ensures r == FinalStateOf(inbox)
  {
    var final: Option<Callback> := None;
    for i := 0 to |callbacks|
      invariant final.Some? ==> final.value in callbacks && FinalPhase(final.value.phase)
      invariant forall n | 0 <= n < i && FinalPhase(callbacks[n].phase) ::
                  final.Some? && final.value.seqNo <= callbacks[n].seqNo
    {
      var callback := callbacks[i];
      if FinalPhase(callback.phase) && (final == None || callback.seqNo < final.value.seqNo) {
        final := Some(callback);
      }
    }
    if final == None {
      assert forall j | j in inbox :: inbox[j] in callbacks;
      return NotReady;
    }
    ghost var k := final.value.seqNo;
    assert IsMarker(inbox, k) by {
      assert forall j | j in inbox :: inbox[j] in callbacks;
    }
    var seen: set<nat> := {};
    for i := 0 to |callbacks|
      invariant forall n | 0 <= n < i && callbacks[n].seqNo <= k ::
                  callbacks[n].ingest == Processed && callbacks[n].seqNo in seen
      invariant forall j | j in seen :: j in inbox
    {
      var callback := callbacks[i];
      if callback.seqNo > final.value.seqNo { continue; }
      if callback.ingest != Processed {
        assert callback.seqNo in inbox && inbox[callback.seqNo] == callback;
        NoOtherEnd(inbox, k);
        return NotReady;
      }
      seen := seen + {callback.seqNo};
    }
    forall j | j in inbox && j <= k ensures inbox[j].ingest == Processed && j in seen {
      assert inbox[j] in callbacks;
    }
    var want := 1;
    while want <= final.value.seqNo
      invariant 1 <= want <= k + 1
      invariant forall j | 1 <= j < want :: j in inbox
    {
      if want !in seen {
        NoOtherEnd(inbox, k);
        return NotReady;
      }
      want := want + 1;
    }
    FinalStateAt(inbox, k);
    if final.value.phase == PhaseCompleted && final.value.status == Success { return Ready(Success); }
    if final.value.phase == PhaseCompleted && final.value.status == Partial { return Ready(Partial); }
    if final.value.phase == PhaseCompleted && final.value.status == Cancelled { return Ready(Cancelled); }
    if final.value.phase == PhaseFailed && final.value.status == Failed { return Ready(Failed); }
    return BadTransition;
  }

  lemma NoOtherEnd(inbox: Inbox, k: nat)
    requires IsMarker(inbox, k) && !PrefixProcessed(inbox, k)
    ensures FinalStateOf(inbox) == NotReady
  {
    forall j | IsEnd(inbox, j) ensures false { MarkerUnique(inbox, j, k); }
  }

  // -------------------------------------------------- transactions, as values

  datatype ReceiveOutcome =
    | Rejected | TooLarge | BadSignature | PayloadConflict | NotRunning | Accepted(duplicate: bool)

  /** The transaction of HandleCallback: an existing row decides by its hash; a new row needs a
      running run. */
  function ReceiveTx(db: Db, p: Payload): (Db, ReceiveOutcome) {
    if p.seqNo in db.inbox then
      (db, if db.inbox[p.seqNo].hash != p.hash then PayloadConflict else Accepted(true))
    else if db.run.status != Running then (db, NotRunning)
    else
      (db.(inbox := db.inbox[p.seqNo := Callback(p.seqNo, p.phase, p.status, p.hash, p.resultCount,
                                               Waiting, 0, db.now)]),
       Accepted(false))
  }

  /** The checks HandleCallback makes before its transaction. */
  function ReceiveChecks(runId: nat, seqNo: nat, bodyLength: nat, authentic: bool, p: Option<Payload>)
    : Option<ReceiveOutcome>
  {
    if runId == 0 || seqNo == 0 || seqNo > MAX_SEQ || bodyLength == 0 then Some(Rejected)
    else if bodyLength > 4194304 then Some(TooLarge)
    else if !authentic then Some(BadSignature)
    else if p == None || !PayloadValid(p.value) then Some(Rejected)
    else if p.value.runId != runId || p.value.seqNo != seqNo then Some(Rejected)
    else None
  }

  predicate Claimable(c: Callback, now: nat) {
    && (c.ingest == Waiting || c.ingest == IngestFailed
        || (c.ingest == Processing && c.touched + STALE_MILLIS < now))
    && c.attempt < MAX_ATTEMPTS
  }

  function ClaimTx(db: Db, seqNo: nat): (Db, bool) {
    if seqNo in db.inbox && Claimable(db.inbox[seqNo], db.now) then
      var c := db.inbox[seqNo];
      (db.(inbox := db.inbox[seqNo := c.(ingest := Processing, attempt := c.attempt + 1, touched := db.now)]), true)
    else (db, false)
  }

  function FailTx(db: Db, seqNo: nat): Db {
    if seqNo in db.inbox && db.inbox[seqNo].ingest == Processing then
      db.(inbox := db.inbox[seqNo := db.inbox[seqNo].(ingest := IngestFailed, touched := db.now)])
    else db
  }

  predicate Abandoned(c: Callback, now: nat) {
    c.ingest == Processing && c.attempt < MAX_ATTEMPTS && c.touched + STALE_MILLIS < now
  }

  /** ReleaseStaleDiscoveryCallbackIngest: every abandoned claim goes back to waiting. */
  function ReleaseTx(db: Db): Db {
    db.(inbox := map j | j in db.inbox ::
          if Abandoned(db.inbox[j], db.now) then db.inbox[j].(ingest := Waiting, touched := db.now)
          else db.inbox[j])
  }

  /** MarkDiscoveryCallbackEnqueued changes no field the protocol reads except updated_at. */
  function EnqueuedTx(db: Db, seqNo: nat): Db {
    if seqNo in db.inbox then db.(inbox := db.inbox[seqNo := db.inbox[seqNo].(touched := db.now)]) else db
  }

  datatype CompleteOutcome =
    | Missing | AlreadyProcessed | Busy | FinalTransitionError
    | Done(finalized: bool, runAlreadyClosed: bool)

  /** CompleteDiscoveryCallbackIngest: mark, count while running, close on a ready inbox; an
      illegal final transition rolls everything back. */
  ghost function CompleteTx(db: Db, seqNo: nat): (Db, CompleteOutcome) {
    if seqNo !in db.inbox then (db, Missing)
    else if db.inbox[seqNo].ingest == Processed then (db, AlreadyProcessed)
    else if db.inbox[seqNo].ingest != Processing then (db, Busy)
    else
      var c := db.inbox[seqNo];
      var marked := db.(inbox := db.inbox[seqNo := c.(ingest := Processed, touched := db.now)]);
      var added := if db.run.status != Running then marked
                   else marked.(run := db.run.(resultCount := db.run.resultCount + c.count),
                                counted := db.counted + {seqNo});
      match FinalStateOf(added.inbox)
      case NotReady => (added, Done(false, false))
      case BadTransition => (db, FinalTransitionError)
      case Ready(status) =>
        if added.run.status != Running then (added, Done(false, added.run.status != status))
        else
          var passes := if status == Success || status == Partial then 1 else 0;
          (added.(run := added.run.(status := status,
                                    lifecyclePasses := added.run.lifecyclePasses + passes)),
           Done(true, false))
  }

  // ------------------------------------------------------- the stored tables

  /** The rows of one run in the database; each method is one source operation. */
  class RunStore {
    var run: Run
    var inbox: Inbox
    var now: nat
    const secretRef: string
    ghost var counted: set<nat>

    ghost function State(): Db
      reads this
    {
      Db(run, inbox, counted, now)
    }

    ghost predicate Valid()
      reads this
    {
      forall j | j in inbox :: inbox[j].seqNo == j
    }

    constructor (jobId: nat, secretRef: string)
      ensures Valid() && State() == Db(Run(Pending, 0, jobId, 0), map[], {}, 0)
      ensures this.secretRef == secretRef
    {
      run, inbox, now, counted := Run(Pending, 0, jobId, 0), map[], 0, {};
      this.secretRef := secretRef;
    }

    /** HandleCallback: the checks in order, then the receipt transaction, whose first statement
        compares the secret reference; an accepted callback that still waits is enqueued. */
    method HandleCallback(runId: nat, seqNo: nat, bodyLength: nat, authentic: bool, secretRef: string,
                          p: Option<Payload>)
      returns (outcome: ReceiveOutcome, enqueue: bool)
      requires Valid()
      modifies this
      ensures Valid()
      ensures var checks := ReceiveChecks(runId, seqNo, bodyLength, authentic, p);
              if checks.Some? then outcome == checks.value && State() == old(State())
              else if this.secretRef != "" && this.secretRef != secretRef
              then outcome == BadSignature && State() == old(State())
              else (State(), outcome) == ReceiveTx(old(State()), p.value)
      ensures enqueue <==> outcome.Accepted? && seqNo in inbox && inbox[seqNo].ingest == Waiting
    {
      if runId == 0 || seqNo == 0 || seqNo > MAX_SEQ || bodyLength == 0 { return Rejected, false; }
      if bodyLength > 4194304 { return TooLarge, false; }
      if !authentic { return BadSignature, false; }
      if p == None { return Rejected, false; }
      var valid := ValidateCallbackPayload(p.value);
      if !valid { return Rejected, false; }
      if p.value.runId != runId || p.value.seqNo != seqNo { return Rejected, false; }
      if this.secretRef != "" && this.secretRef != secretRef { return BadSignature, false; }
      if seqNo in inbox {
        if inbox[seqNo].hash != p.value.hash { return PayloadConflict, false; }
        return Accepted(true), inbox[seqNo].ingest == Waiting;
      }
      if run.status != Running { return NotRunning, false; }
      var candidate := Callback(seqNo, p.value.phase, p.value.status, p.value.hash,
                                p.value.resultCount, Waiting, 0, now);
      inbox := inbox[seqNo := candidate];
      var ok := MarkRunCallbackReceived(0);
      return Accepted(false), true;
    }

    /** MarkTaskRunCallbackReceived: the guarded update reports whether the run was running. */
    method MarkRunCallbackReceived(count: nat) returns (ok: bool)
      modifies this`run
      ensures ok <==> old(run).status == Running
      ensures run == if ok then old(run).(resultCount := old(run).resultCount + count) else old(run)
    {
      if run.status != Running { return false; }
      run := run.(resultCount := run.resultCount + count);
      return true;
    }

    method ClaimDiscoveryCallbackIngest(seqNo: nat) returns (claimed: bool)
      requires Valid()
      modifies this`inbox
      ensures Valid() && (State(), claimed) == ClaimTx(old(State()), seqNo)
    {
      if seqNo !in inbox { return false; }
      var c := inbox[seqNo];
      var free := c.ingest == Waiting || c.ingest == IngestFailed;
      var stale := c.ingest == Processing && c.touched + STALE_MILLIS < now;
      if (!free && !stale) || c.attempt >= MAX_ATTEMPTS { return false; }
      inbox := inbox[seqNo := c.(ingest := Processing, attempt := c.attempt + 1, touched := now)];
      return true;
    }

    method FailDiscoveryCallbackIngest(seqNo: nat)
      requires Valid()
      modifies this`inbox
      ensures Valid() && State() == FailTx(old(State()), seqNo)
    {
      if seqNo in inbox && inbox[seqNo].ingest == Processing {
        inbox := inbox[seqNo := inbox[seqNo].(ingest := IngestFailed, touched := now)];
      }
    }

    method ReleaseStaleDiscoveryCallbackIngest()
      requires Valid()
      modifies this`inbox
      ensures Valid() && State() == ReleaseTx(old(State()))
    {
      var pending := inbox.Keys;
      while pending != {}
        invariant pending <= inbox.Keys == old(inbox).Keys
        invariant forall j | j in inbox :: inbox[j] ==
                    if j in pending then old(inbox)[j] else ReleaseTx(old(State())).inbox[j]
        decreases |pending|
      {
        var j :| j in pending;
        pending := pending - {j};
        if Abandoned(inbox[j], now) {
          inbox := inbox[j := inbox[j].(ingest := Waiting, touched := now)];
        }
      }
      assert inbox == ReleaseTx(old(State())).inbox;
    }

    /** ListDiscoveryCallbacksForRunForUpdate. */
    method ListCallbacks() returns (rows: seq<Callback>)
      requires Valid()
      ensures Lists(rows, inbox)
    {
      rows := [];
      var pending := inbox.Keys;
      while pending != {}
        invariant pending <= inbox.Keys
        invariant forall c | c in rows :: c.seqNo in inbox && inbox[c.seqNo] == c
        invariant forall j | j in inbox && j !in pending :: inbox[j] in rows
        decreases |pending|
      {
        var j :| j in pending;
        pending := pending - {j};
        rows := rows + [inbox[j]];
      }
    }

    /** CompleteDiscoveryCallbackIngest, statement by statement inside one transaction. */
    method CompleteDiscoveryCallbackIngest(seqNo: nat) returns (outcome: CompleteOutcome)
      requires Valid()
      modifies this
      ensures Valid() && (State(), outcome) == CompleteTx(old(State()), seqNo)
    {
      ghost var before := State();
      var run0, inbox0 := run, inbox;
      if seqNo !in inbox { return Missing; }
      var current := inbox[seqNo];
      if current.ingest == Processed { return AlreadyProcessed; }
      if current.ingest != Processing { return Busy; }
      inbox := inbox[seqNo := current.(ingest := Processed, touched := now)];
      if run.status == Running {
        var ok := MarkRunCallbackReceived(current.count);
        counted := counted + {seqNo};
      }
      var callbacks := ListCallbacks();
      var final := CallbackFinalState(callbacks, inbox);
      if final.BadTransition? {
        run, inbox, counted := run0, inbox0, before.counted;
        return FinalTransitionError;
      }
      if final.NotReady? { return Done(false, false); }
      if run.status != Running { return Done(false, run.status != final.status); }
      if final.status == Success || final.status == Partial {
        run := run.(lifecyclePasses := run.lifecyclePasses + 1);
      }
      VerdictCloses(inbox);
      run := MarkRun(run, Running, final.status, run.resultCount).value;
      return Done(true, false);
    }
  }

  /** Whatever callbackFinalState reports is a status a running run may close with. */
  lemma VerdictCloses(inbox: Inbox)
    requires FinalStateOf(inbox).Ready?
    ensures TransitionAllowed(Running, FinalStateOf(inbox).status)
  {
    var k := EndOf(inbox);
  }
}

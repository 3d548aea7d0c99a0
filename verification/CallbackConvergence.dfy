/** The callback path on its own: whatever the order of arrival, claims, crashes and completions,
    one set of callbacks closes its run in one way, and exactly when it still can. */
module CallbackConvergence {
  import opened Options
  import opened Runs
  import opened Callbacks
  import opened CallbackProtocol

  /** What the engine sends for one run: one valid payload per sequence number. */
  type Messages = map<nat, Payload>

  predicate Sendable(messages: Messages) {
    forall j | j in messages ::
      PayloadValid(messages[j]) && messages[j].seqNo == j && j <= MAX_SEQ
  }

  /** Everything that can happen to a run except a change from outside the callback path. */
  predicate CallbackEvent(e: Event, messages: Messages) {
    match e
    case Receive(_, _, p) => p.seqNo in messages && messages[p.seqNo] == p
    case Tick(_) => true
    case Enqueued(_) => true
    case Release => true
    case WorkerLoad(_, _) => true
    case WorkerClaim(_) => true
    case WorkerIngest(_, _) => true
    case WorkerFail(_) => true
    case WorkerComplete(_) => true
    case WorkerCrash(_) => true
    case _ => false
  }

  predicate CallbackOnly(events: seq<Event>, messages: Messages) {
    forall e | e in events :: CallbackEvent(e, messages)
  }

  /** A freshly dispatched run. */
  const START := Sys(Db(Run(Running, 0, 1, 0), map[], {}, 0), map[], map[])

  /** The messages declare an end: a lowest final marker and everything below it. */
  ghost predicate MessageEnd(messages: Messages, k: nat) {
    && k in messages && FinalPhase(messages[k].phase)
    && (forall j | j in messages && FinalPhase(messages[j].phase) :: k <= j)
    && (forall j | 1 <= j <= k :: j in messages)
  }

  predicate RowOf(c: Callback, p: Payload) {
    c.phase == p.phase && c.status == p.status && c.count == p.resultCount && c.hash == p.hash
  }

  /** Holds in every state the callback path reaches from START. */
  ghost predicate OpenDb(db: Db, messages: Messages) {
    && DbInv(db) && db.run.status != Pending
    && (forall j | j in db.inbox :: j in messages && RowOf(db.inbox[j], messages[j]))
    && (forall j | j in db.inbox :: db.inbox[j].touched <= db.now)
    && (db.run.status != Running <==> InboxReady(db.inbox))
    && (InboxReady(db.inbox) ==>
          var k := EndOf(db.inbox);
          db.run.status == messages[k].status && forall j | 1 <= j <= k :: j in db.counted)
    && db.run.resultCount == Total(db.inbox, db.counted)
  }

  ghost predicate OpenInv(s: Sys, messages: Messages) {
    OpenDb(s.db, messages)
  }

  lemma EndIsMessageEnd(s: Sys, messages: Messages, k: nat)
    requires Sendable(messages) && OpenInv(s, messages)
    requires IsEnd(s.db.inbox, k)
    ensures MessageEnd(messages, k)
  {}

  lemma MessageEndUnique(messages: Messages, j: nat, k: nat)
    requires MessageEnd(messages, j) && MessageEnd(messages, k)
    ensures j == k
  {}

  /** A transaction that processes nothing and counts nothing. */
  lemma QuietTx(db: Db, after: Db, messages: Messages)
    requires OpenDb(db, messages) && DbInv(after) && after.run == db.run && after.counted == db.counted
    requires forall j | j in db.inbox :: j in after.inbox && after.inbox[j].phase == db.inbox[j].phase
               && after.inbox[j].count == db.inbox[j].count
    requires ProcessedRows(after.inbox) == ProcessedRows(db.inbox)
    requires db.run.status == Running || after.inbox.Keys == db.inbox.Keys
    requires forall j | j in after.inbox :: j in messages && RowOf(after.inbox[j], messages[j])
    requires forall j | j in after.inbox :: after.inbox[j].touched <= after.now
    ensures OpenDb(after, messages)
  {
    TallySame(db.inbox, after.inbox, db.counted, MAX_SEQ);
    if InboxReady(db.inbox) {
      var k := EndOf(db.inbox);
      forall j | j in after.inbox && j <= k ensures after.inbox[j].ingest == Processed {
        assert j in ProcessedRows(db.inbox);
      }
      assert IsEnd(after.inbox, k);
      MarkerUnique(after.inbox, k, EndOf(after.inbox));
    }
  }

  /** Processing a row while the run is running: counted, and closing exactly when ready. */
  lemma CompletionWhileRunning(db: Db, j: nat, messages: Messages)
    requires OpenDb(db, messages) && db.run.status == Running
    requires j in db.inbox && db.inbox[j].ingest == Processing
    ensures OpenDb(CompleteTx(db, j).0, messages)
  {
    CompleteKeeps(db, j);
    var after := CompleteTx(db, j).0;
    var inbox := db.inbox[j := db.inbox[j].(ingest := Processed, touched := db.now)];
    LegalVerdict(inbox);
    CountingStep(db, j, inbox);
    assert after.inbox == inbox && after.counted == ProcessedRows(inbox);
    if InboxReady(inbox) {
      var k := EndOf(inbox);
      assert after.run.status == inbox[k].status;
      forall i | 1 <= i <= k ensures i in after.counted { assert i in ProcessedRows(inbox); }
    }
  }

  /** Processing a leftover row of a closed run. */
  lemma CompletionAfterClose(db: Db, j: nat, messages: Messages)
    requires OpenDb(db, messages) && db.run.status != Running
    requires j in db.inbox && db.inbox[j].ingest == Processing
    ensures OpenDb(CompleteTx(db, j).0, messages)
  {
    CompleteKeeps(db, j);
    var inbox := db.inbox[j := db.inbox[j].(ingest := Processed, touched := db.now)];
    LegalVerdict(inbox);
    var k := EndOf(db.inbox);
    assert IsEnd(inbox, k);
    MarkerUnique(inbox, k, EndOf(inbox));
    TallySame(db.inbox, inbox, db.counted, MAX_SEQ);
  }

  lemma CompletionKeepsOpen(db: Db, j: nat, messages: Messages)
    requires OpenDb(db, messages)
    ensures OpenDb(CompleteTx(db, j).0, messages)
  {
    if j in db.inbox && db.inbox[j].ingest == Processing {
      if db.run.status == Running {
        CompletionWhileRunning(db, j, messages);
      } else {
        CompletionAfterClose(db, j, messages);
      }
    }
  }

  lemma ClaimKeepsOpen(db: Db, seqNo: nat, messages: Messages)
    requires OpenDb(db, messages)
    ensures OpenDb(ClaimTx(db, seqNo).0, messages)
  {
    RowStepsKeep(db, seqNo);
    assert ProcessedRows(ClaimTx(db, seqNo).0.inbox) == ProcessedRows(db.inbox);
    QuietTx(db, ClaimTx(db, seqNo).0, messages);
  }

  lemma FailKeepsOpen(db: Db, seqNo: nat, messages: Messages)
    requires OpenDb(db, messages)
    ensures OpenDb(FailTx(db, seqNo), messages)
  {
    RowStepsKeep(db, seqNo);
    assert ProcessedRows(FailTx(db, seqNo).inbox) == ProcessedRows(db.inbox);
    QuietTx(db, FailTx(db, seqNo), messages);
  }

  lemma EnqueuedKeepsOpen(db: Db, seqNo: nat, messages: Messages)
    requires OpenDb(db, messages)
    ensures OpenDb(EnqueuedTx(db, seqNo), messages)
  {
    RowStepsKeep(db, seqNo);
    assert ProcessedRows(EnqueuedTx(db, seqNo).inbox) == ProcessedRows(db.inbox);
    QuietTx(db, EnqueuedTx(db, seqNo), messages);
  }

  lemma ReceiveKeepsOpen(db: Db, p: Payload, bodyLength: nat, authentic: bool, messages: Messages)
    requires OpenDb(db, messages) && p.seqNo in messages && messages[p.seqNo] == p
    requires ReceiveChecks(p.runId, p.seqNo, bodyLength, authentic, Some(p)) == None
    ensures OpenDb(ReceiveTx(db, p).0, messages)
  {
    ReceiveKeeps(db, bodyLength, authentic, p);
    if ReceiveTx(db, p).0 != db {
      assert ProcessedRows(ReceiveTx(db, p).0.inbox) == ProcessedRows(db.inbox);
      QuietTx(db, ReceiveTx(db, p).0, messages);
    }
  }

  lemma StepKeepsOpen(s: Sys, e: Event, messages: Messages)
    requires Sendable(messages) && OpenInv(s, messages) && CallbackEvent(e, messages)
    ensures OpenInv(Step(s, e), messages)
  {
    match e
    case Receive(bodyLength, authentic, p) =>
      if ReceiveChecks(p.runId, p.seqNo, bodyLength, authentic, Some(p)) == None {
        ReceiveKeepsOpen(s.db, p, bodyLength, authentic, messages);
      }
    case Tick(millis) => QuietTx(s.db, s.db.(now := s.db.now + millis), messages);
    case Enqueued(seqNo) => EnqueuedKeepsOpen(s.db, seqNo, messages);
    case Release =>
      ReleaseKeeps(s.db);
      assert ProcessedRows(ReleaseTx(s.db).inbox) == ProcessedRows(s.db.inbox);
      QuietTx(s.db, ReleaseTx(s.db), messages);
    case WorkerClaim(w) => if WorkerAt(s, w).Loaded? { ClaimKeepsOpen(s.db, WorkerAt(s, w).seqNo, messages); }
    case WorkerFail(w) => if WorkerAt(s, w).IngestBroken? { FailKeepsOpen(s.db, WorkerAt(s, w).seqNo, messages); }
    case WorkerComplete(w) =>
      if WorkerAt(s, w).IngestedOk? { CompletionKeepsOpen(s.db, WorkerAt(s, w).seqNo, messages); }
    case _ =>
  }

  lemma {:induction false} OpenReachable(s: Sys, events: seq<Event>, messages: Messages)
    requires Sendable(messages) && OpenInv(s, messages) && CallbackOnly(events, messages)
    ensures OpenInv(Exec(s, events), messages)
    decreases |events|
  {
    if events != [] {
      OpenReachable(s, events[..|events|-1], messages);
      StepKeepsOpen(Exec(s, events[..|events|-1]), events[|events|-1], messages);
    }
  }

  lemma StartOpen(messages: Messages)
    ensures OpenInv(START, messages)
  {
    EmptyTally(MAX_SEQ);
    assert ProcessedRows(map[]) == {};
  }

  // -------------------------------------------------------------- confluence

  /** The run is closed exactly when its inbox is ready, and then with the status of the lowest
      final marker the engine sent, every callback up to it processed and counted. */
  lemma ClosesOnTheFirstMarker(events: seq<Event>, messages: Messages)
    requires Sendable(messages) && CallbackOnly(events, messages)
    ensures var db := Exec(START, events).db;
            && (db.run.status != Running <==> InboxReady(db.inbox))
            && (db.run.status != Running ==>
                  exists k :: MessageEnd(messages, k) && db.run.status == messages[k].status
                    && PrefixProcessed(db.inbox, k) && forall j | 1 <= j <= k :: j in db.counted)
  {
    StartOpen(messages);
    OpenReachable(START, events, messages);
    var s := Exec(START, events);
    if InboxReady(s.db.inbox) { EndIsMessageEnd(s, messages, EndOf(s.db.inbox)); }
  }

  /** No callback is numbered beyond the first final marker. */
  ghost predicate NothingBeyond(messages: Messages) {
    forall i, j | i in messages && j in messages && FinalPhase(messages[i].phase) :: j <= i
  }

  /** When no callback lies beyond the marker, a closed run has counted every callback. */
  lemma ClosedCountsAll(events: seq<Event>, messages: Messages)
    requires Sendable(messages) && CallbackOnly(events, messages) && NothingBeyond(messages)
    requires Exec(START, events).db.run.status != Running
    ensures Exec(START, events).db.counted == messages.Keys
  {
    ClosesOnTheFirstMarker(events, messages);
    StartOpen(messages);
    OpenReachable(START, events, messages);
    var db := Exec(START, events).db;
    var k: nat :| MessageEnd(messages, k) && forall j | 1 <= j <= k :: j in db.counted;
    forall j | j in messages ensures j in db.counted {
      assert FinalPhase(messages[k].phase) && j <= k;
    }
  }

  /** Two executions over the same callbacks that both close agree on the status; without a
      callback beyond the marker they agree on the result count too. */
  lemma Confluence(a: seq<Event>, b: seq<Event>, messages: Messages)
    requires Sendable(messages) && CallbackOnly(a, messages) && CallbackOnly(b, messages)
    requires Exec(START, a).db.run.status != Running && Exec(START, b).db.run.status != Running
    ensures Exec(START, a).db.run.status == Exec(START, b).db.run.status
    ensures NothingBeyond(messages) ==> Exec(START, a).db.run.resultCount == Exec(START, b).db.run.resultCount
  {
    ClosesOnTheFirstMarker(a, messages);
    ClosesOnTheFirstMarker(b, messages);
    var k :| MessageEnd(messages, k) && Exec(START, a).db.run.status == messages[k].status;
    var m :| MessageEnd(messages, m) && Exec(START, b).db.run.status == messages[m].status;
    MessageEndUnique(messages, k, m);
    if NothingBeyond(messages) {
      ClosedCountsAll(a, messages);
      ClosedCountsAll(b, messages);
      StartOpen(messages);
      OpenReachable(START, a, messages);
      OpenReachable(START, b, messages);
      TallySame(Exec(START, a).db.inbox, Exec(START, b).db.inbox, messages.Keys, MAX_SEQ);
    }
  }

  // ---------------------------------------------------------------- liveness

  predicate Holds(u: Worker, j: nat) {
    u == Claimed(j) || u == IngestedOk(j)
  }

  /** Callback `j` can still be processed: it is not received yet, or done, or has attempts left,
      or its last attempt is in the hands of a worker. */
  ghost predicate RowAlive(s: Sys, j: nat) {
    j in s.db.inbox ==>
      || s.db.inbox[j].ingest == Processed
      || s.db.inbox[j].attempt < MAX_ATTEMPTS
      || (s.db.inbox[j].ingest == Processing && exists w :: w in s.workers && Holds(s.workers[w], j))
  }

  ghost predicate CanClose(s: Sys, messages: Messages) {
    exists k :: MessageEnd(messages, k) && forall j | 1 <= j <= k :: RowAlive(s, j)
  }

  lemma DeadStaysStep(s: Sys, e: Event, j: nat, messages: Messages)
    requires DbInv(s.db) && CallbackEvent(e, messages) && !RowAlive(s, j)
    ensures !RowAlive(Step(s, e), j)
  {
    var t := Step(s, e);
    assert s.db.inbox[j].attempt == MAX_ATTEMPTS;
    if s.db.inbox[j].ingest == Processing {
      forall w | w in t.workers ensures !Holds(t.workers[w], j) {
        if w in s.workers { assert !Holds(s.workers[w], j); }
      }
    }
  }

  lemma {:induction false} DeadStays(s: Sys, events: seq<Event>, j: nat, messages: Messages)
    requires Sendable(messages) && OpenInv(s, messages) && CallbackOnly(events, messages) && !RowAlive(s, j)
    ensures !RowAlive(Exec(s, events), j)
    decreases |events|
  {
    if events != [] {
      DeadStays(s, events[..|events|-1], j, messages);
      OpenReachable(s, events[..|events|-1], messages);
      DeadStaysStep(Exec(s, events[..|events|-1]), events[|events|-1], j, messages);
    }
  }

  /** `t` differs from `s` only in row `j`, now processed, and in workers that do not hold others. */
  ghost predicate Advanced(s: Sys, t: Sys, j: nat) {
    && j in t.db.inbox && t.db.inbox[j].ingest == Processed
    && (forall i | i != j && i in s.db.inbox :: i in t.db.inbox && t.db.inbox[i] == s.db.inbox[i])
    && (forall i | i != j && i in t.db.inbox :: i in s.db.inbox)
    && (forall w, i | i != j && w in s.workers && Holds(s.workers[w], i) ::
          w in t.workers && t.workers[w] == s.workers[w])
  }

  lemma CompleteNow(s: Sys, j: nat, w: nat)
    requires DbInv(s.db) && WorkerAt(s, w) == IngestedOk(j)
    requires j in s.db.inbox && s.db.inbox[j].ingest == Processing
    ensures var t := Step(s, WorkerComplete(w)); Advanced(s, t, j) && WorkerAt(t, w) == Idle
  {
    CompleteCases(s.db, j);
  }

  lemma FinishRow(s: Sys, j: nat, w: nat, messages: Messages) returns (events: seq<Event>)
    requires DbInv(s.db)
    requires j in s.db.inbox && s.db.inbox[j].ingest == Processing && w in s.workers && Holds(s.workers[w], j)
    ensures CallbackOnly(events, messages) && Advanced(s, Exec(s, events), j)
    ensures WorkerAt(Exec(s, events), w) == Idle
    ensures forall v | v != w :: WorkerAt(Exec(s, events), v) == WorkerAt(s, v)
  {
    if s.workers[w] == Claimed(j) {
      var t := Step(s, WorkerIngest(w, true));
      CompleteNow(t, j, w);
      events := [WorkerIngest(w, true), WorkerComplete(w)];
      TwoSteps(s, events);
    } else {
      CompleteNow(s, j, w);
      events := [WorkerComplete(w)];
      assert events[..0] == [] && Exec(s, events) == Step(Exec(s, []), events[0]);
    }
  }

  lemma ClaimRow(s: Sys, j: nat, w: nat, messages: Messages) returns (events: seq<Event>)
    requires WorkerAt(s, w) == Idle
    requires j in s.db.inbox && s.db.inbox[j].touched <= s.db.now
    requires s.db.inbox[j].ingest != Processed && s.db.inbox[j].attempt < MAX_ATTEMPTS
    ensures CallbackOnly(events, messages)
    ensures var t := Exec(s, events);
            && t.db.inbox == s.db.inbox[j := s.db.inbox[j].(ingest := Processing,
                                             attempt := s.db.inbox[j].attempt + 1, touched := t.db.now)]
            && t.db.run == s.db.run && t.workers == s.workers[w := Claimed(j)]
  {
    events := [Tick(STALE_MILLIS + 1), WorkerLoad(w, j), WorkerClaim(w)];
    ThreeSteps(s, events);
    var ticked := Step(s, events[0]);
    assert Step(ticked, events[1]) == ticked.(workers := s.workers[w := Loaded(j)]);
    assert s.workers[w := Loaded(j)][w := Claimed(j)] == s.workers[w := Claimed(j)];
  }

  lemma ClaimAndFinish(s: Sys, j: nat, w: nat, messages: Messages) returns (events: seq<Event>)
    requires Sendable(messages) && OpenInv(s, messages) && WorkerAt(s, w) == Idle
    requires j in s.db.inbox && s.db.inbox[j].ingest != Processed && s.db.inbox[j].attempt < MAX_ATTEMPTS
    ensures CallbackOnly(events, messages) && Advanced(s, Exec(s, events), j)
    ensures WorkerAt(Exec(s, events), w) == Idle
  {
    var claim := ClaimRow(s, j, w, messages);
    var t := Exec(s, claim);
    OpenReachable(s, claim, messages);
    var rest := FinishRow(t, j, w, messages);
    ExecConcat(s, claim, rest);
    events := claim + rest;
    forall v, i | i != j && v in s.workers && Holds(s.workers[v], i)
      ensures v in Exec(t, rest).workers && Exec(t, rest).workers[v] == s.workers[v]
    {
      assert v != w && t.workers[v] == s.workers[v];
    }
  }

  /** Any callback that is alive can be processed while the run is running. */
  lemma ProcessRow(s: Sys, j: nat, w: nat, messages: Messages) returns (events: seq<Event>)
    requires Sendable(messages) && OpenInv(s, messages) && WorkerAt(s, w) == Idle
    requires j in messages && RowAlive(s, j) && s.db.run.status == Running
    ensures CallbackOnly(events, messages) && Advanced(s, Exec(s, events), j)
    ensures WorkerAt(Exec(s, events), w) == Idle
  {
    if j !in s.db.inbox {
      var receive := [Receive(1, true, messages[j])];
      var t := Step(s, receive[0]);
      assert receive[..0] == [] && Exec(s, receive) == Step(Exec(s, []), receive[0]);
      StepKeepsOpen(s, receive[0], messages);
      var rest := ClaimAndFinish(t, j, w, messages);
      ExecConcat(s, receive, rest);
      events := receive + rest;
    } else if s.db.inbox[j].ingest == Processed {
      events := [];
    } else if s.db.inbox[j].attempt < MAX_ATTEMPTS {
      events := ClaimAndFinish(s, j, w, messages);
    } else {
      var v :| v in s.workers && Holds(s.workers[v], j);
      events := FinishRow(s, j, v, messages);
    }
  }

  lemma {:induction false} ProcessPrefix(s: Sys, n: nat, k: nat, w: nat, messages: Messages) returns (events: seq<Event>)
    requires Sendable(messages) && OpenInv(s, messages) && WorkerAt(s, w) == Idle
    requires MessageEnd(messages, k) && n <= k
    requires forall j | 1 <= j <= k :: RowAlive(s, j)
    ensures CallbackOnly(events, messages) && WorkerAt(Exec(s, events), w) == Idle
    ensures forall j | 1 <= j <= k :: RowAlive(Exec(s, events), j)
    ensures forall j | 1 <= j <= n :: j in Exec(s, events).db.inbox && Exec(s, events).db.inbox[j].ingest == Processed
    decreases n
  {
    if n == 0 { return []; }
    var first := ProcessPrefix(s, n - 1, k, w, messages);
    var t := Exec(s, first);
    OpenReachable(s, first, messages);
    if t.db.run.status != Running {
      EndIsMessageEnd(t, messages, EndOf(t.db.inbox));
      MessageEndUnique(messages, k, EndOf(t.db.inbox));
      return first;
    }
    var rest := ProcessRow(t, n, w, messages);
    ExecConcat(s, first, rest);
    events := first + rest;
    forall j | 1 <= j <= k ensures RowAlive(Exec(t, rest), j) {
      assert RowAlive(t, j);
      if j != n && j in t.db.inbox && t.db.inbox[j].attempt == MAX_ATTEMPTS && t.db.inbox[j].ingest == Processing {
        var v :| v in t.workers && Holds(t.workers[v], j);
        assert Exec(t, rest).workers[v] == t.workers[v];
      }
    }
  }

  lemma FreshWorker(taken: set<nat>) returns (w: nat)
    ensures w !in taken
  {
    w := 0;
    var rest := taken;
    while w in rest
      invariant forall v | v in taken :: v in rest || v < w
      invariant rest <= taken
      decreases |rest|
    {
      rest := rest - {w};
      w := w + 1;
    }
    assert w !in rest;
  }

  /** The callback path can still close a running run if and only if the engine has an end to send
      and every callback up to it is alive. */
  lemma ClosesIffAlive(s: Sys, messages: Messages)
    requires Sendable(messages) && OpenInv(s, messages) && s.db.run.status == Running
    ensures (exists events :: CallbackOnly(events, messages) && Exec(s, events).db.run.status != Running)
            <==> CanClose(s, messages)
  {
    if CanClose(s, messages) {
      var k: nat :| MessageEnd(messages, k) && forall j | 1 <= j <= k :: RowAlive(s, j);
      var w := FreshWorker(s.workers.Keys);
      var events := ProcessPrefix(s, k, k, w, messages);
      OpenReachable(s, events, messages);
      var inbox := Exec(s, events).db.inbox;
      assert IsEnd(inbox, k);
    }
    forall events | CallbackOnly(events, messages) && Exec(s, events).db.run.status != Running
      ensures CanClose(s, messages)
    {
      OpenReachable(s, events, messages);
      var t := Exec(s, events);
      var k := EndOf(t.db.inbox);
      EndIsMessageEnd(t, messages, k);
      forall j | 1 <= j <= k ensures RowAlive(s, j) {
        if !RowAlive(s, j) { DeadStays(s, events, j, messages); }
      }
    }
  }

  // ------------------------------------------------------------------- wedge

  /** One received final callback, claimed and abandoned `n` times by worker 0. */
  ghost predicate LeftBehind(s: Sys, n: nat) {
    && s.db.inbox.Keys == {1} && s.db.inbox[1].attempt == n && s.db.run.status == Running
    && s.db.inbox[1].touched <= s.db.now
    && s.db.inbox[1].ingest == (if n == 0 then Waiting else Processing)
    && s.workers.Keys <= {0} && WorkerAt(s, 0) == Idle
  }

  lemma {:induction false} CrashesExhaust(p: Payload, n: nat) returns (events: seq<Event>)
    requires PayloadValid(p) && p.seqNo == 1 && n <= MAX_ATTEMPTS
    ensures CallbackOnly(events, map[1 := p]) && LeftBehind(Exec(START, events), n)
    decreases n
  {
    if n == 0 {
      events := [Receive(1, true, p)];
      assert events[..0] == [] && Exec(START, events) == Step(Exec(START, []), events[0]);
    } else {
      var rounds := CrashesExhaust(p, n - 1);
      var s := Exec(START, rounds);
      var claim := ClaimRow(s, 1, 0, map[1 := p]);
      ExecConcat(START, rounds, claim);
      events := rounds + claim + [WorkerCrash(0)];
      assert events[..|events|-1] == rounds + claim;
    }
  }

  /** Ten interrupted attempts wedge a run for good: the engine sent a complete set of callbacks,
      all were received, and no continuation of the callback path closes the run. */
  lemma TenCrashesWedge(p: Payload)
    requires PayloadValid(p) && p.seqNo == 1 && FinalPhase(p.phase)
    ensures exists events :: CallbackOnly(events, map[1 := p]) && MessageEnd(map[1 := p], 1)
              && Exec(START, events).db.inbox.Keys == {1}
              && forall more :: CallbackOnly(more, map[1 := p]) ==>
                   Exec(Exec(START, events), more).db.run.status == Running
  {
    var messages := map[1 := p];
    var events := CrashesExhaust(p, MAX_ATTEMPTS);
    StartOpen(messages);
    OpenReachable(START, events, messages);
    var s := Exec(START, events);
    assert MessageEnd(messages, 1);
    assert !RowAlive(s, 1) by {
      forall w | w in s.workers ensures !Holds(s.workers[w], 1) { assert WorkerAt(s, 0) == Idle; }
    }
    ClosesIffAlive(s, messages);
    assert !CanClose(s, messages) by {
      forall k | MessageEnd(messages, k) ensures exists j :: 1 <= j <= k && !RowAlive(s, j) {
        MessageEndUnique(messages, 1, k);
      }
    }
  }
}

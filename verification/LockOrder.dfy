/** Row locks of the transactions that touch runs and callbacks: which of them can wait for each
    other in a circle. A transaction is the sequence of locks it asks for; it keeps what it has
    until it commits or rolls back. */
module LockOrder {
  datatype Lock = RunRow(run: nat) | CallbackRow(run: nat, seqNo: nat)

  type Program = seq<Lock>

  // -------------------------------------------------- the source's programs

  /** HandleCallback: the run, then the inserted row. */
  function Receipt(run: nat, seqNo: nat): Program {
    [RunRow(run), CallbackRow(run, seqNo)]
  }

  /** ingestCallbackFactsWith: the run only (asset rows are outside this model). */
  function FactIngest(run: nat): Program {
    [RunRow(run)]
  }

  /** The rows of one run in the order the listing visits them. */
  function Rows(run: nat, seqNos: seq<nat>): Program {
    seq(|seqNos|, i requires 0 <= i < |seqNos| => CallbackRow(run, seqNos[i]))
  }

  /** CompleteDiscoveryCallbackIngest: the run, the completed row, then every row of the run. */
  function Completion(run: nat, seqNo: nat, listed: seq<nat>): Program {
    [RunRow(run), CallbackRow(run, seqNo)] + Rows(run, listed)
  }

  /** Claim, fail and enqueue marks: one statement on one row. */
  function RowMark(run: nat, seqNo: nat): Program {
    [CallbackRow(run, seqNo)]
  }

  /** A guarded update of the run row alone. */
  function RunUpdate(run: nat): Program {
    [RunRow(run)]
  }

  /** The reconciler's FOR UPDATE listing, run outside any transaction. */
  function ReconcileListing(run: nat, listed: seq<nat>): Program {
    Rows(run, listed)
  }

  /** ReleaseStaleDiscoveryCallbackIngest: one UPDATE over callback rows of any runs. */
  function ReleaseSweep(rows: seq<(nat, nat)>): Program {
    seq(|rows|, i requires 0 <= i < |rows| => CallbackRow(rows[i].0, rows[i].1))
  }

  /** The documented lock order: a transaction with more than one lock takes its run first and
      then only callback rows of that run. */
  predicate Disciplined(p: Program) {
    |p| <= 1 || (p[0].RunRow? && forall i | 1 <= i < |p| :: p[i].CallbackRow? && p[i].run == p[0].run)
  }

  lemma SourceProgramsAreDisciplined(run: nat, seqNo: nat, listed: seq<nat>)
    ensures Disciplined(Receipt(run, seqNo)) && Disciplined(FactIngest(run))
    ensures Disciplined(Completion(run, seqNo, listed))
    ensures Disciplined(RowMark(run, seqNo)) && Disciplined(RunUpdate(run))
    ensures Disciplined(ReconcileListing(run, listed)) <==> |listed| <= 1
  {
    if |listed| > 1 { assert ReconcileListing(run, listed)[0] == CallbackRow(run, listed[0]); }
  }

  // --------------------------------------------------------------- execution

  /** A live transaction: the locks it has and those it will still ask for, in order. */
  datatype Live = Live(held: set<Lock>, todo: Program)

  type Table = map<nat, Live>

  datatype Event = Start(id: nat, program: Program) | Acquire(id: nat) | Finish(id: nat)

  /** `id` asks for a lock that `other` holds. */
  predicate WaitsFor(table: Table, id: nat, other: nat) {
    && id in table && other in table && id != other
    && table[id].todo != [] && table[id].todo[0] in table[other].held
  }

  ghost predicate Blocked(table: Table, id: nat) {
    exists other :: WaitsFor(table, id, other)
  }

  /** A lock request is granted unless another transaction holds the lock; a commit or rollback is
      always possible and gives everything back. */
  ghost function Step(table: Table, e: Event): Table {
    match e
    case Start(id, program) => if id in table then table else table[id := Live({}, program)]
    case Acquire(id) =>
      if id in table && table[id].todo != [] && !Blocked(table, id)
      then table[id := Live(table[id].held + {table[id].todo[0]}, table[id].todo[1..])] else table
    case Finish(id) => table - {id}
  }

  ghost function Exec(table: Table, events: seq<Event>): Table
    decreases |events|
  {
    if events == [] then table else Exec(Step(table, events[0]), events[1..])
  }

  /** What the lock order leaves of a transaction half way through. */
  ghost predicate Orderly(t: Live) {
    || t.todo == []
    || (t.held == {} && Disciplined(t.todo))
    || exists run :: RunRow(run) in t.held && (forall lock | lock in t.held :: lock.run == run)
         && forall lock | lock in t.todo :: lock.CallbackRow? && lock.run == run
  }

  ghost predicate Inv(table: Table) {
    && (forall i, j | i in table && j in table && i != j :: table[i].held !! table[j].held)
    && forall i | i in table :: Orderly(table[i])
  }

  predicate OnlyStarts(events: seq<Event>, programs: set<Program>) {
    forall e | e in events && e.Start? :: e.program in programs
  }

  lemma GrantKeepsOrder(t: Live)
    requires t.todo != [] && Orderly(t)
    ensures Orderly(Live(t.held + {t.todo[0]}, t.todo[1..]))
  {
    var after := Live(t.held + {t.todo[0]}, t.todo[1..]);
    if after.todo != [] {
      var run := t.todo[0].run;
      assert RunRow(run) in after.held;
      forall lock | lock in after.todo ensures lock.CallbackRow? && lock.run == run {
        assert lock in t.todo;
        var i :| 1 <= i < |t.todo| && t.todo[i] == lock;
      }
    }
  }

  lemma StepKeeps(table: Table, e: Event)
    requires Inv(table) && (e.Start? ==> Disciplined(e.program))
    ensures Inv(Step(table, e))
  {
    if e.Acquire? && e.id in table && table[e.id].todo != [] && !Blocked(table, e.id) {
      GrantKeepsOrder(table[e.id]);
      forall other | other in table && other != e.id ensures table[e.id].todo[0] !in table[other].held {
        assert !WaitsFor(table, e.id, other);
      }
    }
  }

  lemma {:induction false} Reachable(table: Table, events: seq<Event>)
    requires Inv(table) && forall e | e in events && e.Start? :: Disciplined(e.program)
    ensures Inv(Exec(table, events))
    decreases |events|
  {
    if events != [] {
      StepKeeps(table, events[0]);
      Reachable(Step(table, events[0]), events[1..]);
    }
  }

  /** Each member of the group waits for a member of the group. */
  ghost predicate WaitCycle(table: Table, group: set<nat>) {
    group != {} && forall i {:trigger WaitsInside(table, group, i)} | i in group :: WaitsInside(table, group, i)
  }

  ghost predicate WaitsInside(table: Table, group: set<nat>, i: nat) {
    exists j :: j in group && WaitsFor(table, i, j)
  }

  // ------------------------------------------------------------ main results

  /** Under the lock order no reachable state has a circle of waiting transactions, however many
      transactions over however many runs are live. */
  lemma NoWaitCycle(events: seq<Event>, group: set<nat>)
    requires forall e | e in events && e.Start? :: Disciplined(e.program)
    ensures !WaitCycle(Exec(map[], events), group)
  {
    Reachable(map[], events);
    var table := Exec(map[], events);
    if WaitCycle(table, group) {
      var d :| d in group;
      assert WaitsInside(table, group, d);
      var e :| e in group && WaitsFor(table, d, e);
      assert WaitsInside(table, group, e);
      var f :| f in group && WaitsFor(table, e, f);
      assert WaitsInside(table, group, f);
      WaitChainsEnd(table, d, e, f);
    }
  }

  /** Waiting chains are short: a waiting transaction that is itself waited for waits for one that
      has every lock it needs. */
  lemma WaitChainsEnd(table: Table, d: nat, e: nat, f: nat)
    requires Inv(table) && WaitsFor(table, d, e) && WaitsFor(table, e, f)
    ensures table[f].todo == []
  {
    if table[f].todo != [] {
      var run := HolderHasItsRun(table[e]);
      var other := HolderHasItsRun(table[f]);
      assert false;
    }
  }

  /** A waiting transaction that already holds a lock holds its run, and wants a row of that run. */
  lemma HolderHasItsRun(t: Live) returns (run: nat)
    requires Orderly(t) && t.held != {} && t.todo != []
    ensures RunRow(run) in t.held && t.todo[0].run == run
    ensures forall lock | lock in t.held :: lock.run == run
  {
    run :| RunRow(run) in t.held && (forall lock | lock in t.held :: lock.run == run)
           && forall lock | lock in t.todo :: lock.CallbackRow? && lock.run == run;
  }

  /** So some transaction can always go on: take its next lock, or commit. */
  lemma SomeoneCanGoOn(events: seq<Event>)
    requires forall e | e in events && e.Start? :: Disciplined(e.program)
    requires Exec(map[], events).Keys != {}
    ensures exists id :: id in Exec(map[], events) && !Blocked(Exec(map[], events), id)
  {
    var table := Exec(map[], events);
    NoWaitCycle(events, table.Keys);
    var id :| id in table.Keys && !WaitsInside(table, table.Keys, id);
    assert Blocked(table, id) ==> WaitsInside(table, table.Keys, id);
  }

  // --------------------------------- statements outside the lock order

  /** A statement that locks callback rows without their runs. */
  predicate RowsOnly(p: Program) {
    && (forall i | 0 <= i < |p| :: p[i].CallbackRow?)
    && forall i, j | 0 <= i < j < |p| :: p[i] != p[j]
  }

  predicate OneRowPerRun(p: Program) {
    forall i, j | 0 <= i < j < |p| :: p[i].run != p[j].run
  }

  /** Transactions that keep the lock order, together with any number that run `extra`, can reach a
      circle of waiting transactions. */
  ghost predicate CanDeadlock(extra: Program) {
    exists events, group :: Runs(events, extra) && WaitCycle(Exec(map[], events), group)
  }

  predicate Runs(events: seq<Event>, extra: Program) {
    forall e | e in events && e.Start? :: Disciplined(e.program) || e.program == extra
  }

  /** The transaction is part of the way through `p`. */
  ghost predicate Midway(t: Live, p: Program) {
    |t.todo| <= |p| && t.held == Locks(p[..|p| - |t.todo|]) && t.todo == p[|p| - |t.todo|..]
  }

  ghost predicate InvWith(table: Table, extra: Program) {
    && (forall i, j | i in table && j in table && i != j :: table[i].held !! table[j].held)
    && forall i | i in table :: Orderly(table[i]) || Midway(table[i], extra)
  }

  lemma StepKeepsWith(table: Table, e: Event, extra: Program)
    requires InvWith(table, extra) && (e.Start? ==> Disciplined(e.program) || e.program == extra)
    ensures InvWith(Step(table, e), extra)
  {
    if e.Start? {
      assert extra[..0] == [] && extra[0..] == extra;
    } else if e.Acquire? && e.id in table && table[e.id].todo != [] && !Blocked(table, e.id) {
      var t := table[e.id];
      if Orderly(t) { GrantKeepsOrder(t); } else { GrantKeepsMidway(t, extra); }
      forall other | other in table && other != e.id ensures t.todo[0] !in table[other].held {
        assert !WaitsFor(table, e.id, other);
      }
    }
  }

  lemma GrantKeepsMidway(t: Live, p: Program)
    requires t.todo != [] && Midway(t, p)
    ensures Midway(Live(t.held + {t.todo[0]}, t.todo[1..]), p)
  {
    var n := |p| - |t.todo|;
    assert p[..n + 1] == p[..n] + [p[n]] && p[n..][1..] == p[n + 1..];
  }

  lemma {:induction false} ReachableWith(table: Table, events: seq<Event>, extra: Program)
    requires InvWith(table, extra) && Runs(events, extra)
    ensures InvWith(Exec(table, events), extra)
    decreases |events|
  {
    if events != [] {
      StepKeepsWith(table, events[0], extra);
      ReachableWith(Step(table, events[0]), events[1..], extra);
    }
  }

  /** Where in `extra` the transaction's next lock stands: twice the position for a transaction part
      of the way through it, one more for an orderly one that wants a row of the same run. */
  ghost function Rank(t: Live, extra: Program): int {
    if Midway(t, extra) then 2 * (|extra| - |t.todo|)
    else if t.todo != [] && exists k :: 0 <= k < |extra| && extra[k].run == t.todo[0].run then
      var k :| 0 <= k < |extra| && extra[k].run == t.todo[0].run;
      2 * k + 1
    else 0
  }

  /** Two transactions part of the way through one program share its first lock. */
  lemma OneMidway(t: Live, u: Live, p: Program)
    requires Midway(t, p) && Midway(u, p) && t.held != {} && u.held != {}
    ensures !(t.held !! u.held)
  {
    assert p[..|p| - |t.todo|][0] == p[0] && p[..|p| - |u.todo|][0] == p[0];
    assert p[0] in t.held && p[0] in u.held;
  }

  /** Waiting leads to higher ranks. */
  lemma RankGrows(table: Table, extra: Program, d: nat, e: nat)
    requires InvWith(table, extra) && RowsOnly(extra) && OneRowPerRun(extra)
    requires WaitsFor(table, d, e) && table[d].held != {} && table[e].todo != []
    ensures Rank(table[d], extra) < Rank(table[e], extra)
  {
    var t, u := table[d], table[e];
    if Midway(t, extra) && Midway(u, extra) {
      OneMidway(t, u, extra);
      assert false;
    } else if Midway(t, extra) {
      RankOfOrderly(u, extra, |extra| - |t.todo|);
    } else if Midway(u, extra) {
      var run := HolderHasItsRun(t);
      var m := |extra| - |u.todo|;
      var i :| 0 <= i < m && extra[..m][i] == t.todo[0];
      RankOfOrderly(t, extra, i);
    } else {
      var run := HolderHasItsRun(t);
      var other := HolderHasItsRun(u);
      assert false;
    }
  }

  /** An orderly transaction that holds its run stands just after the row of that run. */
  lemma RankOfOrderly(t: Live, extra: Program, k: nat)
    requires Orderly(t) && t.held != {} && t.todo != [] && !Midway(t, extra)
    requires OneRowPerRun(extra) && k < |extra|
    requires extra[k] in t.held || extra[k].run == t.todo[0].run
    ensures Rank(t, extra) == 2 * k + 1
  {
    var run := HolderHasItsRun(t);
    assert extra[k].run == t.todo[0].run;
  }

  lemma {:induction false} HighestRank(table: Table, extra: Program, members: set<nat>) returns (m: nat)
    requires members != {} && members <= table.Keys
    ensures m in members && forall i | i in members :: Rank(table[i], extra) <= Rank(table[m], extra)
    decreases members
  {
    hide Rank;
    var some :| some in members;
    var rest := members - {some};
    m := some;
    if rest != {} {
      var best := HighestRank(table, extra, rest);
      if Rank(table[some], extra) < Rank(table[best], extra) { m := best; }
    }
    forall i | i in members ensures Rank(table[i], extra) <= Rank(table[m], extra) {
      if i != some { assert i in rest; }
    }
  }

  lemma SparseRowsAreSafe(extra: Program, events: seq<Event>, group: set<nat>)
    requires RowsOnly(extra) && OneRowPerRun(extra) && Runs(events, extra)
    ensures !WaitCycle(Exec(map[], events), group)
  {
    ReachableWith(map[], events, extra);
    var table := Exec(map[], events);
    hide Rank, InvWith, Runs, Exec;
    if WaitCycle(table, group) {
      var d :| d in group;
      assert WaitsInside(table, group, d);
      var holders := set i | i in group && i in table && table[i].held != {};
      var first :| first in group && WaitsFor(table, d, first);
      assert first in holders;
      var m := HighestRank(table, extra, holders);
      assert WaitsInside(table, group, m);
      var e :| e in group && WaitsFor(table, m, e);
      assert WaitsInside(table, group, e) && e in holders;
      RankGrows(table, extra, m, e);
      assert false;
    }
  }

  /** Two rows of one run, locked without the run, close a circle with a completion of that run. */
  lemma TwoRowsCloseACircle(extra: Program, i: nat, j: nat)
    requires RowsOnly(extra) && i < j < |extra| && extra[i].run == extra[j].run
    ensures CanDeadlock(extra)
  {
    var run, low, high := extra[i].run, extra[i].seqNo, extra[j].seqNo;
    var p := Completion(run, high, [low, high]);
    SourceProgramsAreDisciplined(run, high, [low, high]);
    var events := Interleaving(p, extra, j);
    TwoAndMany(p, extra, j);
    var table := Exec(map[], events);
    assert extra[..j][i] == extra[i] && p[2] == extra[i] && p[1] == extra[j];
    assert p[..2][1] == extra[j];
    CircleOfTwo(table);
    forall e | e in events && e.Start? ensures Disciplined(e.program) || e.program == extra {
      InterleavingStarts(p, extra, j, e);
    }
    assert Runs(events, extra) && WaitCycle(table, {0, 1});
  }

  /** Exactly when a statement that locks callback rows without their runs is dangerous beside
      transactions that keep the order: it locks two rows of one run. */
  lemma DangerousStatements(extra: Program)
    requires RowsOnly(extra)
    ensures CanDeadlock(extra) <==> !OneRowPerRun(extra)
  {
    if OneRowPerRun(extra) {
      forall events, group | Runs(events, extra) ensures !WaitCycle(Exec(map[], events), group) {
        SparseRowsAreSafe(extra, events, group);
      }
    } else {
      var i, j :| 0 <= i < j < |extra| && extra[i].run == extra[j].run;
      TwoRowsCloseACircle(extra, i, j);
    }
  }

  /** The reconciler's listing can close a circle exactly when it lists more than one row. */
  lemma ListingClosesACircle(run: nat, listed: seq<nat>)
    requires forall i, j | 0 <= i < j < |listed| :: listed[i] != listed[j]
    ensures CanDeadlock(ReconcileListing(run, listed)) <==> |listed| > 1
  {
    var extra := ReconcileListing(run, listed);
    DangerousStatements(extra);
    if |listed| > 1 { assert extra[0].run == extra[1].run; }
  }

  /** So can the release sweep, exactly when it meets two rows of one run. */
  lemma SweepClosesACircle(rows: seq<(nat, nat)>)
    requires forall i, j | 0 <= i < j < |rows| :: rows[i] != rows[j]
    ensures CanDeadlock(ReleaseSweep(rows)) <==> exists i, j :: 0 <= i < j < |rows| && rows[i].0 == rows[j].0
  {
    var extra := ReleaseSweep(rows);
    DangerousStatements(extra);
    assert forall i | 0 <= i < |rows| :: extra[i].run == rows[i].0;
  }

  /** Why the order was introduced: completions that lock their own row before the run. */
  lemma FormerOrderClosesACircle(run: nat, low: nat, high: nat)
    requires low < high
    ensures exists events :: WaitCycle(Exec(map[], events), {0, 1})
              && OnlyStarts(events, {FormerCompletion(run, high, [low, high]), FormerCompletion(run, low, [low, high])})
  {
    var p, q := FormerCompletion(run, high, [low, high]), FormerCompletion(run, low, [low, high]);
    var events := Interleaving(p, q, 1);
    TwoAndMany(p, q, 1);
    assert p[2] == CallbackRow(run, low) == q[..1][0] && q[1] == RunRow(run) == p[..2][1];
    CircleOfTwo(Exec(map[], events));
    forall e | e in events && e.Start? ensures e.program in {p, q} { InterleavingStarts(p, q, 1, e); }
  }

  function FormerCompletion(run: nat, seqNo: nat, listed: seq<nat>): Program {
    [CallbackRow(run, seqNo), RunRow(run)] + Rows(run, listed)
  }

  /** The second transaction takes `n` locks, one after the other. */
  function Takes(n: nat): seq<Event> {
    seq(n, i => Acquire(1))
  }

  /** The first transaction takes two locks, then the second one `n`. */
  function Interleaving(p: Program, q: Program, n: nat): seq<Event> {
    [Start(0, p), Start(1, q), Acquire(0), Acquire(0)] + Takes(n)
  }

  lemma InterleavingStarts(p: Program, q: Program, n: nat, e: Event)
    requires e in Interleaving(p, q, n) && e.Start?
    ensures e.program == p || e.program == q
  {
    assert forall t | t in Takes(n) :: t == Acquire(1);
  }

  lemma CircleOfTwo(table: Table)
    requires WaitsFor(table, 0, 1) && WaitsFor(table, 1, 0)
    ensures WaitCycle(table, {0, 1})
  {
    assert WaitsInside(table, {0, 1}, 0) && WaitsInside(table, {0, 1}, 1);
  }

  function Locks(p: Program): set<Lock> {
    set lock | lock in p
  }

  /** The state of two transactions once the first has `m` locks and the second `n`. */
  function Both(p: Program, m: nat, q: Program, n: nat): Table
    requires m <= |p| && n <= |q|
  {
    map[0 := Live(Locks(p[..m]), p[m..]), 1 := Live(Locks(q[..n]), q[n..])]
  }

  lemma FirstGetsNext(p: Program, m: nat, q: Program, n: nat)
    requires m < |p| && n <= |q| && p[m] !in q[..n]
    ensures Step(Both(p, m, q, n), Acquire(0)) == Both(p, m + 1, q, n)
  {
    var table := Both(p, m, q, n);
    assert forall other :: WaitsFor(table, 0, other) ==> other == 1;
    assert Locks(p[..m]) + {p[m]} == Locks(p[..m + 1]);
    assert p[m..][1..] == p[m + 1..];
  }

  lemma SecondGetsNext(p: Program, m: nat, q: Program, n: nat)
    requires m <= |p| && n < |q| && q[n] !in p[..m]
    ensures Step(Both(p, m, q, n), Acquire(1)) == Both(p, m, q, n + 1)
  {
    var table := Both(p, m, q, n);
    assert forall other :: WaitsFor(table, 1, other) ==> other == 0;
    assert Locks(q[..n]) + {q[n]} == Locks(q[..n + 1]);
    assert q[n..][1..] == q[n + 1..];
  }

  lemma {:induction false} SecondGetsMany(p: Program, m: nat, q: Program, n: nat, k: nat)
    requires m <= |p| && n + k <= |q| && forall i | n <= i < n + k :: q[i] !in p[..m]
    ensures Exec(Both(p, m, q, n), Takes(k)) == Both(p, m, q, n + k)
    decreases k
  {
    if k > 0 {
      SecondGetsNext(p, m, q, n);
      SecondGetsMany(p, m, q, n + 1, k - 1);
      assert Takes(k)[0] == Acquire(1) && Takes(k)[1..] == Takes(k - 1);
    }
  }

  /** Two programs: the first takes its first two locks, the second its first `n` ones. */
  lemma TwoAndMany(p: Program, q: Program, n: nat)
    requires |p| >= 2 && n <= |q| && forall i | 0 <= i < n :: q[i] != p[0] && q[i] != p[1]
    ensures Exec(map[], Interleaving(p, q, n)) == Both(p, 2, q, n)
  {
    var events := Interleaving(p, q, n);
    assert p[0..] == p && q[0..] == q && Locks(p[..0]) == {} && Locks(q[..0]) == {};
    assert Step(map[], Start(0, p)) == map[0 := Live({}, p)];
    assert Step(map[0 := Live({}, p)], Start(1, q)) == Both(p, 0, q, 0);
    FirstGetsNext(p, 0, q, 0);
    FirstGetsNext(p, 1, q, 0);
    SecondGetsMany(p, 2, q, 0, n);
    assert events[4..] == Takes(n);
    assert events[3..][1..] == events[4..] && events[2..][1..] == events[3..] && events[1..][1..] == events[2..];
    assert Exec(Both(p, 1, q, 0), events[3..]) == Both(p, 2, q, n);
    assert Exec(Both(p, 0, q, 0), events[2..]) == Both(p, 2, q, n);
    assert Exec(Step(map[], Start(0, p)), events[1..]) == Both(p, 2, q, n);
  }
}

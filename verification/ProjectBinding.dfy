/** Concurrent resolvers of one (project, endpoint) binding to a remote engine project. */
module ProjectBinding {
  import opened Options

  /** An engine_project_binding row; `name` is the deployment-local identity it was inserted with
      and `started` the historical non-idempotent creation flag. */
  datatype Binding = Binding(remote: Option<nat>, name: nat, started: bool)

  datatype Failure = NoProject | EngineFailed | Pending | Conflict

  /** Where one resolver stands between its statements. */
  datatype Place =
    | Idle
    | Missing
    | Inserted
    | Loaded(name: nat, started: bool)
    | Holding(id: nat)
    | Rechecking(id: nat)
    | Done(id: nat)
    | Failed(why: Failure)

  /** `engine` maps identities to the projects the remote engine created for them; `idempotent`
      says whether ensure answers from it. `asked` records every identity passed to ensure. */
  datatype Sys = Sys(row: Option<Binding>, engine: map<nat, nat>, idempotent: bool,
                     places: map<nat, Place>, asked: seq<nat>)

  datatype Event =
    | Start(p: nat)
    | Read(p: nat)
    | Insert(p: nat, name: nat, projectExists: bool)
    | Ask(p: nat, answer: nat)
    | AskFails(p: nat)
    | Store(p: nat)
    | Recheck(p: nat)

  function PlaceOf(s: Sys, p: nat): Place {
    if p in s.places then s.places[p] else Failed(EngineFailed)
  }

  /** What a resolver that read the row does next. */
  function AfterRead(b: Binding): Place {
    if b.remote.Some? && b.remote.value > 0 then Done(b.remote.value) else Loaded(b.name, b.started)
  }

  /** The remote engine's answer to ensure or find for an identity. */
  function Answer(s: Sys, name: nat, started: bool, answer: nat): nat {
    if !s.idempotent then answer
    else if name in s.engine then s.engine[name]
    else if started then 0 else answer
  }

  function Step(s: Sys, e: Event): Sys {
    match e
    case Start(p) => if p in s.places then s else s.(places := s.places[p := Idle])
    case Read(p) =>
      if PlaceOf(s, p) == Idle then
        s.(places := s.places[p := if s.row.Some? then AfterRead(s.row.value) else Missing])
      else if PlaceOf(s, p) == Inserted && s.row.Some? then s.(places := s.places[p := AfterRead(s.row.value)])
      else s
    case Insert(p, name, projectExists) =>
      if PlaceOf(s, p) != Missing then s
      else if !projectExists then s.(places := s.places[p := Failed(NoProject)])
      else s.(row := if s.row.Some? then s.row else Some(Binding(None, name, false)), places := s.places[p := Inserted])
    case Ask(p, answer) =>
      if !PlaceOf(s, p).Loaded? then s
      else
        var (name, started) := (PlaceOf(s, p).name, PlaceOf(s, p).started);
        var id := Answer(s, name, started, answer);
        var next := if id == 0 then Failed(if started then Pending else EngineFailed) else Holding(id);
        if started then s.(places := s.places[p := next])
        else s.(places := s.places[p := next], asked := s.asked + [name],
                engine := if id == 0 then s.engine else s.engine[name := id])
    case AskFails(p) => if PlaceOf(s, p).Loaded? then s.(places := s.places[p := Failed(EngineFailed)]) else s
    case Store(p) =>
      if !PlaceOf(s, p).Holding? || s.row == None then s
      else if s.row.value.remote == None then
        s.(row := Some(s.row.value.(remote := Some(PlaceOf(s, p).id))), places := s.places[p := Done(PlaceOf(s, p).id)])
      else s.(places := s.places[p := Rechecking(PlaceOf(s, p).id)])
    case Recheck(p) =>
      if !PlaceOf(s, p).Rechecking? || s.row == None then s
      else
        s.(places := s.places[p := if s.row.value.remote == Some(PlaceOf(s, p).id)
                                   then Done(PlaceOf(s, p).id) else Failed(Conflict)])
  }

  ghost function Exec(s: Sys, events: seq<Event>): Sys {
    if events == [] then s else Step(Exec(s, events[..|events|-1]), events[|events|-1])
  }

  // --------------------------------------------------------------- invariant

  /** What one resolver's place says about the stored row. */
  predicate PlaceOk(s: Sys, place: Place) {
    match place
    case Inserted => s.row.Some?
    case Loaded(name, started) => s.row.Some? && s.row.value.name == name && s.row.value.started == started
    case Holding(id) => s.row.Some? && id > 0 && (s.idempotent ==> Backs(s, id))
    case Rechecking(id) => s.row.Some? && s.row.value.remote.Some? && id > 0 && (s.idempotent ==> Backs(s, id))
    case Done(id) => s.row.Some? && s.row.value.remote == Some(id)
    case Failed(why) => s.idempotent ==> why != Conflict
    case _ => true
  }

  /** The engine created project `id` for the stored identity. */
  predicate Backs(s: Sys, id: nat)
    requires s.row.Some?
  {
    s.row.value.name in s.engine && s.engine[s.row.value.name] == id
  }

  /** What the row, the engine and the log of ensures say about each other. */
  ghost predicate RowOk(s: Sys) {
    && (forall name | name in s.engine :: s.engine[name] > 0)
    && (s.row.Some? && s.row.value.remote.Some? ==> s.row.value.remote.value > 0)
    && (s.idempotent && s.row.Some? && s.row.value.remote.Some? ==> Backs(s, s.row.value.remote.value))
    && (s.asked != [] ==> s.row.Some? && !s.row.value.started)
    && (forall i | 0 <= i < |s.asked| :: s.asked[i] == s.row.value.name)
  }

  ghost predicate Inv(s: Sys) {
    RowOk(s) && forall p | p in s.places :: PlaceOk(s, s.places[p])
  }

  /** Before any resolver starts: no row, or one left by earlier resolvers. */
  ghost predicate Initial(s: Sys) {
    s.places == map[] && s.asked == [] && RowOk(s)
  }

  /** What no step undoes: the row's identity, its flag, and its remote id once set. */
  predicate Extends(s: Sys, t: Sys) {
    && t.idempotent == s.idempotent
    && (s.row.Some? ==> t.row.Some? && t.row.value.name == s.row.value.name && t.row.value.started == s.row.value.started
                        && (s.row.value.remote.Some? ==> t.row.value.remote == s.row.value.remote))
    && (s.idempotent ==> forall name | name in s.engine :: name in t.engine && t.engine[name] == s.engine[name])
  }

  lemma PlaceKept(s: Sys, t: Sys, place: Place)
    requires Extends(s, t) && PlaceOk(s, place)
    ensures PlaceOk(t, place)
  {}

  /** A step extends the row and leaves its own resolver in an allowed place. */
  lemma StepOwn(s: Sys, e: Event)
    requires RowOk(s) && (e.p in s.places ==> PlaceOk(s, s.places[e.p])) && (e.Ask? ==> e.answer > 0)
    ensures RowOk(Step(s, e)) && Extends(s, Step(s, e))
    ensures e.p in Step(s, e).places ==> PlaceOk(Step(s, e), Step(s, e).places[e.p])
    ensures forall p | p in Step(s, e).places && p != e.p :: p in s.places && Step(s, e).places[p] == s.places[p]
  {}

  lemma StepKeeps(s: Sys, e: Event)
    requires Inv(s) && (e.Ask? ==> e.answer > 0)
    ensures Inv(Step(s, e)) && Extends(s, Step(s, e))
  {
    StepOwn(s, e);
    hide Step, PlaceOk, Extends;
    var t := Step(s, e);
    forall p | p in t.places ensures PlaceOk(t, t.places[p]) {
      if p != e.p { PlaceKept(s, t, s.places[p]); }
    }
  }

  lemma {:induction false} Reachable(s: Sys, events: seq<Event>)
    requires Initial(s) && forall k | 0 <= k < |events| :: events[k].Ask? ==> events[k].answer > 0
    ensures Inv(Exec(s, events))
    decreases |events|
  {
    if events != [] {
      Reachable(s, events[..|events|-1]);
      StepKeeps(Exec(s, events[..|events|-1]), events[|events|-1]);
    }
  }

  // ------------------------------------------------------------ main results

  /** All resolvers that succeed return the stored id, the same for all of them; every ensure uses
      the one stored identity, and a binding marked as started never issues one. This holds even
      for an engine whose ensure is not idempotent. */
  lemma OneProject(s: Sys, events: seq<Event>, p: nat, q: nat)
    requires Initial(s) && forall k | 0 <= k < |events| :: events[k].Ask? ==> events[k].answer > 0
    ensures var t := Exec(s, events);
            && (PlaceOf(t, p).Done? ==> t.row.Some? && t.row.value.remote == Some(PlaceOf(t, p).id))
            && (PlaceOf(t, p).Done? && PlaceOf(t, q).Done? ==> PlaceOf(t, p) == PlaceOf(t, q))
            && (forall i | 0 <= i < |t.asked| :: t.row.Some? && t.asked[i] == t.row.value.name)
            && (t.row.Some? && t.row.value.started ==> t.asked == [])
  {
    Reachable(s, events);
  }

  /** The stored identity and, once set, the stored remote id never change again. */
  lemma {:induction false} StoredForever(s: Sys, events: seq<Event>)
    requires Inv(s) && forall k | 0 <= k < |events| :: events[k].Ask? ==> events[k].answer > 0
    ensures Inv(Exec(s, events)) && Extends(s, Exec(s, events))
    decreases |events|
  {
    if events != [] {
      StoredForever(s, events[..|events|-1]);
      StepKeeps(Exec(s, events[..|events|-1]), events[|events|-1]);
    }
  }

  /** With an idempotent engine no resolver is turned away at the guarded update. */
  lemma NoConflict(s: Sys, events: seq<Event>, p: nat)
    requires Initial(s) && s.idempotent && forall k | 0 <= k < |events| :: events[k].Ask? ==> events[k].answer > 0
    ensures PlaceOf(Exec(s, events), p) != Failed(Conflict)
  {
    Reachable(s, events);
    Steady(s, events);
  }

  lemma {:induction false} Steady(s: Sys, events: seq<Event>)
    ensures Exec(s, events).idempotent == s.idempotent
    decreases |events|
  {
    if events != [] { Steady(s, events[..|events|-1]); }
  }

  lemma ThreeSteps(s: Sys, events: seq<Event>)
    requires |events| == 3
    ensures Exec(s, events) == Step(Step(Step(s, events[0]), events[1]), events[2])
  {
    assert events[..2][..1] == events[..1] && events[..1][..0] == [];
    assert Exec(s, events[..1]) == Step(Exec(s, []), events[0]);
    assert Exec(s, events[..2]) == Step(Exec(s, events[..1]), events[1]);
  }

  lemma {:induction false} ExecConcat(s: Sys, a: seq<Event>, b: seq<Event>)
    ensures Exec(s, a + b) == Exec(Exec(s, a), b)
    decreases |b|
  {
    if b == [] {
      assert a + b == a;
    } else {
      ExecConcat(s, a, b[..|b|-1]);
      assert (a + b)[..|a + b|-1] == a + b[..|b|-1];
    }
  }

  /** One resolver's statements in order; those that do not apply do nothing. */
  function Call(p: nat, name: nat, projectExists: bool, answer: nat): seq<Event> {
    [Start(p), Read(p), Insert(p, name, projectExists)] + [Read(p), Ask(p, answer), Store(p)]
  }

  /** What an undisturbed resolver ends with on an idempotent engine: a stored id is returned without
      asking; a missing project and a started creation that the engine does not know are refused and
      change nothing; otherwise the engine's project for the stored identity, which is `name` for a new
      row, is stored and returned. */
  lemma UndisturbedCall(s: Sys, p: nat, name: nat, projectExists: bool, answer: nat)
    requires RowOk(s) && s.idempotent && p !in s.places && answer > 0
    ensures Resolved(s, p, if s.row.Some? then s.row.value else Binding(None, name, false),
                     s.row.Some? || projectExists, answer, Exec(s, Call(p, name, projectExists, answer)))
  {
    var opening, closing := [Start(p), Read(p), Insert(p, name, projectExists)], [Read(p), Ask(p, answer), Store(p)];
    ExecConcat(s, opening, closing);
    ThreeSteps(s, opening);
    var halfway := Step(Step(Step(s, opening[0]), opening[1]), opening[2]);
    ThreeSteps(halfway, closing);
    OpeningSteps(s, p, name, projectExists);
    var row := if s.row.Some? then s.row.value else Binding(None, name, false);
    hide Exec, Step, Resolved;
    ClosingSteps(s, halfway, p, row, s.row.Some? || projectExists, answer);
  }

  /** The ways a call on `row` may end. */
  predicate Resolved(s: Sys, p: nat, row: Binding, bound: bool, answer: nat, t: Sys) {
    if !bound then PlaceOf(t, p) == Failed(NoProject) && t.row == s.row && t.engine == s.engine
    else if row.remote.Some? then PlaceOf(t, p) == Done(row.remote.value) && t.row == s.row && t.engine == s.engine
    else if row.started && row.name !in s.engine then
      PlaceOf(t, p) == Failed(Pending) && t.row == s.row && t.engine == s.engine
    else
      && PlaceOf(t, p).Done? && t.row == Some(row.(remote := Some(PlaceOf(t, p).id)))
      && row.name in t.engine && t.engine[row.name] == PlaceOf(t, p).id
      && t.engine == if row.name in s.engine then s.engine else s.engine[row.name := answer]
  }

  /** The state after the first three statements of a call. */
  predicate HalfWay(s: Sys, p: nat, row: Binding, bound: bool, t: Sys) {
    && t.engine == s.engine && t.idempotent == s.idempotent
    && (if !bound then t.row == s.row && PlaceOf(t, p) == Failed(NoProject)
        else t.row == Some(row) && (PlaceOf(t, p) == Inserted || PlaceOf(t, p) == AfterRead(row)))
    && (s.row.Some? ==> t.row == s.row)
  }

  lemma OpeningSteps(s: Sys, p: nat, name: nat, projectExists: bool)
    requires p !in s.places
    ensures HalfWay(s, p, if s.row.Some? then s.row.value else Binding(None, name, false), s.row.Some? || projectExists,
                    Step(Step(Step(s, Start(p)), Read(p)), Insert(p, name, projectExists)))
  {}

  lemma ClosingSteps(s: Sys, t: Sys, p: nat, row: Binding, bound: bool, answer: nat)
    requires RowOk(s) && s.idempotent && answer > 0 && HalfWay(s, p, row, bound, t)
    requires if s.row.Some? then row == s.row.value && bound else row.remote == None && !row.started
    ensures Resolved(s, p, row, bound, answer, Step(Step(Step(t, Read(p)), Ask(p, answer)), Store(p)))
  {
    var u := Step(t, Read(p));
    assert bound ==> PlaceOf(u, p) == AfterRead(row) && u.row == Some(row) && u.engine == s.engine;
    assert !bound ==> PlaceOf(u, p) == Failed(NoProject) && u.row == s.row && u.engine == s.engine;
    var v := Step(u, Ask(p, answer));
    assert !PlaceOf(u, p).Loaded? ==> v == u;
  }

  /** A failed request ends its resolver and changes nothing it stored: the row keeps its identity for
      the next call, which on an idempotent engine cannot create another project. */
  lemma FailedRequestIsHarmless(s: Sys, p: nat, q: nat, answer: nat)
    requires RowOk(s) && s.idempotent && PlaceOf(s, p).Loaded? && s.row.Some? && s.row.value.remote == None
    requires q !in s.places && answer > 0
    ensures var t := Step(s, AskFails(p));
            && PlaceOf(t, p) == Failed(EngineFailed) && t.row == s.row && t.engine == s.engine && t.asked == s.asked
            && Resolved(s, q, s.row.value, true, answer, Exec(t, Call(q, s.row.value.name, true, answer)))
  {
    var t := Step(s, AskFails(p));
    UndisturbedCall(t, q, s.row.value.name, true, answer);
  }

  const UNBOUND := Sys(Some(Binding(None, 9, false)), map[], false, map[], [])
  const ENTER := [Start(1), Start(2), Read(1)]
  const CREATE := [Read(2), Ask(1, 5), Ask(2, 6)]
  const FINISH := [Store(1), Store(2), Recheck(2)]

  const ENTERED := Sys(UNBOUND.row, map[], false, map[1 := Loaded(9, false), 2 := Idle], [])
  const HOLDING := Sys(UNBOUND.row, map[9 := 6], false, map[1 := Holding(5), 2 := Holding(6)], [9, 9])

  lemma RaceEntered()
    ensures Exec(UNBOUND, ENTER) == ENTERED
  {
    ThreeSteps(UNBOUND, ENTER);
  }

  lemma RaceHolding()
    ensures Exec(ENTERED, CREATE) == HOLDING
  {
    ThreeSteps(ENTERED, CREATE);
  }

  lemma RaceFinished()
    ensures var t := Exec(HOLDING, FINISH); PlaceOf(t, 1) == Done(5) && PlaceOf(t, 2) == Failed(Conflict)
  {
    ThreeSteps(HOLDING, FINISH);
  }

  /** Without an idempotent engine the second resolver is turned away and its project is orphaned. */
  lemma ConflictWithoutIdempotence()
    ensures var t := Exec(UNBOUND, ENTER + CREATE + FINISH); PlaceOf(t, 1) == Done(5) && PlaceOf(t, 2) == Failed(Conflict)
  {
    hide Exec;
    RaceEntered();
    RaceHolding();
    RaceFinished();
    ExecConcat(UNBOUND, ENTER, CREATE);
    ExecConcat(UNBOUND, ENTER + CREATE, FINISH);
  }

  // ----------------------------------------------------------- one resolver

  /** The stored row and the idempotent engine, as one resolver sees them undisturbed. */
  class EngineProjectResolver {
    var row: Option<Binding>
    var engine: map<nat, nat>

    /** Resolve; `identity` and `created` are the identity and project id a new binding would get.
        A request may fail before or after the engine acted on it: `reached`, `answered`. */
    method Resolve(projectExists: bool, identity: nat, created: nat, reached: bool, answered: bool)
      returns (r: Option<nat>)
      requires created > 0 && (answered ==> reached) && RowOk(Sys(row, engine, true, map[], []))
      modifies this
      ensures RowOk(Sys(row, engine, true, map[], []))
      ensures r.Some? ==> row.Some? && row.value.remote == r && row.value.name in engine && engine[row.value.name] == r.value
      ensures old(row).Some? && old(row).value.remote.Some? ==> r == old(row).value.remote && row == old(row)
      ensures r == None <==> if old(row) == None then !projectExists || !answered
                             else old(row).value.remote == None
                                  && (!answered || (old(row).value.started && old(row).value.name !in old(engine)))
      ensures r == None ==> row == if old(row) == None && projectExists
                                   then Some(Binding(None, identity, false)) else old(row)
      ensures engine == old(engine)
              || (reached && row.Some? && row.value.name !in old(engine) && !row.value.started
                  && engine == old(engine)[row.value.name := created])
    {
      if row == None {
        if !projectExists { return None; }
        row := Some(Binding(None, identity, false));
      }
      var read := row.value;
      if read.remote.Some? && read.remote.value > 0 { return read.remote; }
      var project := 0;
      if read.started {
        if !answered { return None; }
        if read.name in engine { project := engine[read.name]; }
        if project == 0 { return None; }
      } else {
        if reached && read.name !in engine { engine := engine[read.name := created]; }
        if !answered { return None; }
        project := engine[read.name];
      }
      // Nobody wrote in between, so the guarded update finds the id still unset.
      row := Some(row.value.(remote := Some(project)));
      return Some(project);
    }
  }
}

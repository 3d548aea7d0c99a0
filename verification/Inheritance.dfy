/** Continuing from a finished run: derived targets, evidence-pinned snapshots, scope expansion. */
module Inheritance {
  import opened Options
  import opened Targets
  import opened UrlRules
  import opened ScopeDecision

  const MAX_INHERITED := 100
  const MAX_SCOPE_TARGETS := 1000

  /** An asset fact: the target kind its asset type stands for, if any, and its text. */
  datatype Fact = Fact(kind: Option<Kind>, text: Text)

  /** A live discovery_observation row; `content` identifies its normalized JSON. */
  datatype Observation = Observation(project: nat, run: nat, owner: nat, asset: bool, materialized: bool,
                                     fact: Option<Fact>, content: nat, observedAt: nat)

  datatype SourceRun = SourceRun(id: nat, project: nat, owner: nat, scope: nat, complete: bool)

  /** `edges` holds the IP targets attributed to a CDN edge. */
  datatype Db = Db(runs: map<nat, SourceRun>, scopes: map<nat, Scope>, observations: map<nat, Observation>,
                   edges: set<Text>, now: nat)

  datatype Status = Inherited | Pending | Refused | Blocked

  datatype Item = Item(observation: nat, kind: Kind, value: Text, status: Status, hash: nat, observedAt: nat)

  // ------------------------------------------------------ single observations

  predicate Targetable(kind: Kind) {
    kind == Domain || kind == Ip || kind == Url
  }

  /** observationTarget: a text that does not normalise is kept as it is. */
  function ObservationTarget(o: Observation): Option<(Kind, Text)> {
    if !o.asset || !o.materialized || o.fact == None || o.fact.value.kind == None
       || !Targetable(o.fact.value.kind.value) then None
    else
      var (kind, text) := (o.fact.value.kind.value, o.fact.value.text);
      var value := NormalizeTargetValue(kind, text);
      Some((kind, if value.Some? then value.value else text))
  }

  ghost function StatusOf(scope: Scope, now: nat, run: SourceRun, kind: Kind, value: Text): Status {
    var parsed := ParseTypedTarget(kind, value);
    if parsed == None then Refused
    else if !InForce(scope, now) || !run.complete then Blocked
    else
      match DecisionOf(scope.targets, parsed.value)
      case Excluded => Refused
      case Restricted => Refused
      case Allowed => Inherited
      case NoMatch => Pending
  }

  /** derivedCandidate followed by applyIPNetwork, for one observation. */
  ghost function Candidate(db: Db, scope: Scope, run: SourceRun, id: nat): Option<Item> {
    if id !in db.observations then None
    else
      var o := db.observations[id];
      var target := ObservationTarget(o);
      if target == None || o.project != run.project || o.run != run.id || o.owner != run.owner then None
      else
        var (kind, value) := target.value;
        var status := StatusOf(scope, db.now, run, kind, value);
        Some(Item(id, kind, value, if kind == Ip && value in db.edges then Refused else status,
                  o.content, o.observedAt))
  }

  // --------------------------------------------------------------- selection

  predicate SourceOk(db: Db, project: nat, source: nat) {
    && source in db.runs && db.runs[source].id == source && db.runs[source].project == project
    && db.runs[source].scope in db.scopes
    && var scope := db.scopes[db.runs[source].scope];
       && scope.id == db.runs[source].scope && scope.project == project && scope.owner == db.runs[source].owner
       && db.runs[source].complete && InForce(scope, db.now)
  }

  function SourceScope(db: Db, source: nat): Scope
    requires source in db.runs && db.runs[source].scope in db.scopes
  {
    db.scopes[db.runs[source].scope]
  }

  predicate Distinct<T(==)>(s: seq<T>) {
    forall i, j | 0 <= i < j < |s| :: s[i] != s[j]
  }

  ghost predicate Selectable(db: Db, project: nat, source: nat, ids: seq<nat>) {
    && 0 < |ids| <= MAX_INHERITED && 0 !in ids && Distinct(ids) && SourceOk(db, project, source)
    && forall i | 0 <= i < |ids| :: Candidate(db, SourceScope(db, source), db.runs[source], ids[i]).Some?
  }

  ghost function Items(db: Db, source: nat, ids: seq<nat>): seq<Item>
    requires source in db.runs && db.runs[source].scope in db.scopes
    requires forall i | 0 <= i < |ids| :: Candidate(db, SourceScope(db, source), db.runs[source], ids[i]).Some?
  {
    seq(|ids|, i requires 0 <= i < |ids| => Candidate(db, SourceScope(db, source), db.runs[source], ids[i]).value)
  }

  /** selectedDerived: the candidates of the chosen observations, by observation id. */
  ghost function Selected(db: Db, project: nat, source: nat, ids: seq<nat>): seq<Item>
    requires Selectable(db, project, source, ids)
  {
    assert forall i | 0 <= i < |Sort(ids)| :: Sort(ids)[i] in Sort(ids);
    Items(db, source, Sort(ids))
  }

  // --------------------------------------------------------------- snapshots

  datatype TaskType = Dns | PassiveIntel | PortProbe | WebProbe | Fingerprinting | OtherTask

  function ContinuationKind(t: TaskType): Option<Kind> {
    match t
    case Dns => Some(Domain)
    case PassiveIntel => Some(Domain)
    case PortProbe => Some(Ip)
    case WebProbe => Some(Url)
    case Fingerprinting => Some(Url)
    case OtherTask => None
  }

  datatype Evidence = Evidence(observation: nat, hash: nat, observedAt: nat)

  /** inheritanceScopeFingerprint, taken as injective. */
  type Fingerprint = (nat, bool, nat, nat, seq<ScopeTarget>)

  function FingerprintOf(scope: Scope): Fingerprint {
    (scope.id, scope.active, scope.from, scope.until, scope.targets)
  }

  /** The inheritance part of a template configuration, with its targets. The stored fingerprint
      identifies the parent the snapshot was taken under. */
  datatype Snapshot = Snapshot(fingerprint: Fingerprint, source: nat, parent: nat, evidence: seq<Evidence>,
                               targets: seq<(Kind, Text)>)

  /** The first item of every value, in order. */
  function FirstByValue(items: seq<Item>): seq<Item> {
    if items == [] then []
    else
      var kept := FirstByValue(items[..|items|-1]);
      if HasValue(kept, items[|items|-1].value) then kept
      else kept + [items[|items|-1]]
  }

  function EvidenceOf(items: seq<Item>): seq<Evidence> {
    seq(|items|, i requires 0 <= i < |items| => Evidence(items[i].observation, items[i].hash, items[i].observedAt))
  }

  function TargetsOf(items: seq<Item>): seq<(Kind, Text)> {
    seq(|items|, i requires 0 <= i < |items| => (items[i].kind, items[i].value))
  }

  predicate AllInherited(items: seq<Item>, kind: Kind) {
    forall i | 0 <= i < |items| :: items[i].status == Inherited && items[i].kind == kind
  }

  /** What CreateContinuationTemplate captures, before the template is stored. */
  ghost function Captured(db: Db, project: nat, source: nat, kind: Kind, ids: seq<nat>): Option<Snapshot> {
    if !Selectable(db, project, source, ids) || !AllInherited(Selected(db, project, source, ids), kind) then None
    else
      var items := FirstByValue(Selected(db, project, source, ids));
      Some(Snapshot(FingerprintOf(SourceScope(db, source)), source, SourceScope(db, source).id,
                    EvidenceOf(items), TargetsOf(items)))
  }

  function Ids(evidence: seq<Evidence>): seq<nat> {
    seq(|evidence|, i requires 0 <= i < |evidence| => evidence[i].observation)
  }

  predicate Parses(targets: seq<(Kind, Text)>) {
    forall i | 0 <= i < |targets| :: NormalizeTargetValue(targets[i].0, targets[i].1).Some?
  }

  /** parseDispatchConfig's targets. */
  function DispatchTargets(targets: seq<(Kind, Text)>): seq<(Kind, Text)>
    requires Parses(targets)
  {
    seq(|targets|, i requires 0 <= i < |targets| =>
      (targets[i].0, NormalizeTargetValue(targets[i].0, targets[i].1).value))
  }

  /** The candidate still is what the evidence pinned, inherited and of the task's kind. */
  predicate Pinned(item: Item, evidence: Evidence, kind: Option<Kind>) {
    && item.status == Inherited && kind == Some(item.kind) && item.observation == evidence.observation
    && item.hash == evidence.hash && item.observedAt == evidence.observedAt
  }

  function Keys(items: seq<Item>): set<(Kind, Text)> {
    set i | 0 <= i < |items| :: (items[i].kind, items[i].value)
  }

  function SetOf<T>(s: seq<T>): set<T> {
    set i | 0 <= i < |s| :: s[i]
  }

  /** What validateInheritedSnapshot accepts; of the stored fingerprint it checks only that it is
      well formed. */
  ghost predicate Validates(db: Db, project: nat, scopeId: nat, task: TaskType, snap: Snapshot) {
    var ids := Ids(snap.evidence);
    && snap.parent == scopeId && Selectable(db, project, snap.source, ids)
    && SourceScope(db, snap.source).id == scopeId && Parses(snap.targets)
    && (forall i | 0 <= i < |ids| ::
          Pinned(Candidate(db, SourceScope(db, snap.source), db.runs[snap.source], ids[i]).value,
                 snap.evidence[i], ContinuationKind(task)))
    && |snap.targets| == |snap.evidence| && Distinct(DispatchTargets(snap.targets))
    && SetOf(DispatchTargets(snap.targets)) == Keys(Items(db, snap.source, ids))
  }

  // ------------------------------------------------------- scope expansion

  function Insertion(item: Item): ScopeTarget {
    ScopeTarget(item.kind, item.value, Include, false, None)
  }

  /** The rows AuthorizeDerivedTargets inserts: one per distinct pending kind and value. */
  function Insertions(items: seq<Item>): seq<ScopeTarget> {
    if items == [] then []
    else
      var before := Insertions(items[..|items|-1]);
      var last := items[|items|-1];
      if last.status != Pending || Insertion(last) in before then before else before + [Insertion(last)]
  }

  /** The unique key of scope_target would refuse the row. */
  ghost predicate Clashes(targets: seq<ScopeTarget>, t: ScopeTarget) {
    exists s | s in targets :: s.kind == t.kind && s.mode == t.mode && s.value == t.value
  }

  ghost predicate Authorizable(db: Db, project: nat, source: nat, ids: seq<nat>) {
    && Selectable(db, project, source, ids)
    && var items := Selected(db, project, source, ids);
       && |SourceScope(db, source).targets| + |items| <= MAX_SCOPE_TARGETS
       && (forall i | 0 <= i < |items| :: items[i].status == Inherited || items[i].status == Pending)
       && forall t | t in Insertions(items) :: !Clashes(SourceScope(db, source).targets, t)
  }

  /** The scope after a confirmed expansion: exact targets appended, all else as it was. */
  ghost function Expanded(db: Db, project: nat, source: nat, ids: seq<nat>): Scope
    requires Selectable(db, project, source, ids)
  {
    var scope := SourceScope(db, source);
    scope.(targets := scope.targets + Insertions(Selected(db, project, source, ids)))
  }

  // -------------------------------------------------------------- the service

  class InheritanceService {
    var runs: map<nat, SourceRun>
    var scopes: map<nat, Scope>
    var observations: map<nat, Observation>
    var edges: set<Text>
    var now: nat

    function State(): Db
      reads this
    {
      Db(runs, scopes, observations, edges, now)
    }

    /** derivedCandidate and the network rule, for one stored observation. */
    method DerivedCandidate(scope: Scope, run: SourceRun, id: nat) returns (r: Option<Item>)
      ensures r == Candidate(State(), scope, run, id)
    {
      if id !in observations { return None; }
      var o := observations[id];
      var target := ObservationTarget(o);
      if target == None || o.project != run.project || o.run != run.id || o.owner != run.owner { return None; }
      var (kind, value) := target.value;
      var status := Pending;
      var parsed := ParseTypedTarget(kind, value);
      if parsed == None {
        status := Refused;
      } else if !InForce(scope, now) || !run.complete {
        status := Blocked;
      } else {
        var decision := ScopeMatchDecision(scope.targets, parsed.value);
        match decision {
          case Excluded => status := Refused;
          case Restricted => status := Refused;
          case Allowed => status := Inherited;
          case NoMatch =>
        }
      }
      if kind == Ip && value in edges { status := Refused; }
      return Some(Item(id, kind, value, status, o.content, o.observedAt));
    }

    /** The checks on the source run and its scope. */
    method InheritanceSource(project: nat, source: nat) returns (r: Option<(SourceRun, Scope)>)
      ensures r.Some? <==> SourceOk(State(), project, source)
      ensures r.Some? ==> r.value == (runs[source], SourceScope(State(), source))
    {
      if source !in runs { return None; }
      var run := runs[source];
      if run.id != source || run.project != project || run.scope !in scopes { return None; }
      var scope := scopes[run.scope];
      if scope.id != run.scope || scope.project != project || scope.owner != run.owner { return None; }
      if !run.complete || !InForce(scope, now) { return None; }
      return Some((run, scope));
    }

    /** selectedDerived. */
    method SelectedDerived(project: nat, source: nat, ids: seq<nat>) returns (r: Option<(Scope, seq<Item>)>)
      ensures r.Some? <==> Selectable(State(), project, source, ids)
      ensures r.Some? ==>
        r.value == (SourceScope(State(), source), Selected(State(), project, source, ids))
    {
      hide Candidate, Sort;
      if |ids| == 0 || |ids| > MAX_INHERITED { return None; }
      var found := InheritanceSource(project, source);
      if found == None { return None; }
      var (run, scope) := found.value;
      var items: map<nat, Item> := map[];
      for i := 0 to |ids|
        invariant Distinct(ids[..i]) && 0 !in ids[..i]
        invariant forall id :: id in items <==> id in ids[..i]
        invariant forall id | id in items :: Candidate(State(), scope, run, id) == Some(items[id])
      {
        var id := ids[i];
        assert ids[..i + 1] == ids[..i] + [id] && id in ids;
        if id == 0 || id in items { return None; }
        var candidate := DerivedCandidate(scope, run, id);
        if candidate == None { return None; }
        items := items[id := candidate.value];
      }
      assert ids[..|ids|] == ids;
      var order := Sort(ids);
      assert forall i | 0 <= i < |order| :: order[i] in order;
      var selected := seq(|order|, i requires 0 <= i < |order| => items[order[i]]);
      assert Selectable(State(), project, source, ids);
      assert selected == Selected(State(), project, source, ids);
      return Some((scope, selected));
    }

    /** The loop that captures targets and evidence, once per value. */
    method Capture(items: seq<Item>, kind: Kind) returns (ok: bool, targets: seq<(Kind, Text)>, evidence: seq<Evidence>)
      ensures ok <==> AllInherited(items, kind)
      ensures ok ==> targets == TargetsOf(FirstByValue(items)) && evidence == EvidenceOf(FirstByValue(items))
    {
      var seen: set<Text> := {};
      targets, evidence := [], [];
      for i := 0 to |items|
        invariant AllInherited(items[..i], kind)
        invariant targets == TargetsOf(FirstByValue(items[..i])) && evidence == EvidenceOf(FirstByValue(items[..i]))
        invariant forall v :: v in seen <==> HasValue(FirstByValue(items[..i]), v)
      {
        var item := items[i];
        assert items[..i + 1][..i] == items[..i];
        if item.status != Inherited || item.kind != kind { return false, targets, evidence; }
        ghost var before := FirstByValue(items[..i]);
        if item.value in seen { continue; }
        seen := seen + {item.value};
        targets := targets + [(kind, item.value)];
        evidence := evidence + [Evidence(item.observation, item.hash, item.observedAt)];
        assert FirstByValue(items[..i + 1]) == before + [item];
        HasValueAppend(before, item);
      }
      assert items[..|items|] == items;
      ok := true;
    }

    /** The config's targets are checked off against the expected keys. */
    method CheckOff(targets: seq<(Kind, Text)>, keys: set<(Kind, Text)>) returns (ok: bool)
      ensures ok <==> Distinct(targets) && SetOf(targets) == keys
    {
      var expected := keys;
      for i := 0 to |targets|
        invariant Distinct(targets[..i]) && SetOf(targets[..i]) <= keys
        invariant expected == keys - SetOf(targets[..i])
      {
        SetOfAppend(targets, i);
        if targets[i] !in expected {
          assert targets[i] in SetOf(targets[..i]) || targets[i] !in keys;
          NotCheckedOff(targets, keys, i);
          return false;
        }
        expected := expected - {targets[i]};
      }
      assert targets[..|targets|] == targets;
      assert keys == SetOf(targets) + expected;
      return expected == {};
    }

    /** The evidence by observation id. */
    method IndexEvidence(evidence: seq<Evidence>) returns (byId: map<nat, Evidence>)
      ensures Distinct(Ids(evidence)) ==> Indexes(byId, evidence)
    {
      byId := map[];
      for i := 0 to |evidence|
        invariant Distinct(Ids(evidence)) ==> Indexes(byId, evidence[..i])
      {
        ghost var ids := Ids(evidence);
        assert forall k | 0 <= k < i :: ids[k] == evidence[k].observation && ids[i] == evidence[i].observation;
        byId := byId[evidence[i].observation := evidence[i]];
      }
      assert evidence[..|evidence|] == evidence;
    }

    /** The loop over the candidates, each against its evidence. */
    method AllPinned(items: seq<Item>, byId: map<nat, Evidence>, kind: Option<Kind>) returns (ok: bool)
      requires forall j | 0 <= j < |items| :: items[j].observation in byId
      ensures ok <==> PinnedItems(items, byId, kind)
    {
      for j := 0 to |items|
        invariant forall k | 0 <= k < j :: Pinned(items[k], byId[items[k].observation], kind)
      {
        if !Pinned(items[j], byId[items[j].observation], kind) { return false; }
      }
      return true;
    }

    /** validateInheritedSnapshot. */
    method ValidateInheritedSnapshot(project: nat, scopeId: nat, task: TaskType, snap: Snapshot) returns (ok: bool)
      ensures ok <==> Validates(State(), project, scopeId, task, snap)
    {
      hide Sort, Candidate;
      var evidence := snap.evidence;
      if snap.parent != scopeId || |evidence| == 0 || |evidence| > MAX_INHERITED { return false; }
      var ids := Ids(evidence);
      var byId := IndexEvidence(evidence);
      var selected := SelectedDerived(project, snap.source, ids);
      if selected == None { return false; }
      var (parent, candidates) := selected.value;
      SelectedIsItems(State(), project, snap.source, ids);
      PinnedBySelection(State(), project, snap.source, evidence, byId, ContinuationKind(task));
      if parent.id != scopeId || !Parses(snap.targets) { return false; }
      var config := DispatchTargets(snap.targets);
      if |config| != |candidates| { return false; }
      ok := AllPinned(candidates, byId, ContinuationKind(task));
      if !ok { return; }
      ok := CheckOff(config, Keys(candidates));
    }

    /** CreateContinuationTemplate: capture, then the template creation's own validation. */
    method CreateContinuationTemplate(project: nat, source: nat, task: TaskType, ids: seq<nat>,
                                      fingerprint: Fingerprint)
      returns (r: Option<Snapshot>)
      ensures r.Some? <==>
        && ContinuationKind(task).Some?
        && Captured(State(), project, source, ContinuationKind(task).value, ids).Some?
        && fingerprint == FingerprintOf(SourceScope(State(), source))
        && Validates(State(), project, SourceScope(State(), source).id, task,
                     Captured(State(), project, source, ContinuationKind(task).value, ids).value)
      ensures r.Some? ==> r == Captured(State(), project, source, ContinuationKind(task).value, ids)
    {
      hide Validates, Candidate, Sort;
      var kind := ContinuationKind(task);
      if kind == None { return None; }
      var selected := SelectedDerived(project, source, ids);
      if selected == None { return None; }
      var (scope, items) := selected.value;
      if fingerprint != FingerprintOf(scope) { return None; }
      var ok, targets, evidence := Capture(items, kind.value);
      if !ok { return None; }
      var snap := Snapshot(FingerprintOf(scope), source, scope.id, evidence, targets);
      ok := ValidateInheritedSnapshot(project, scope.id, task, snap);
      if !ok { return None; }
      return Some(snap);
    }

    /** The insert loop: pending items once each; anything neither pending nor inherited stops it. */
    method InsertPending(targets: seq<ScopeTarget>, items: seq<Item>) returns (ok: bool, r: seq<ScopeTarget>)
      ensures ok <==>
        && (forall i | 0 <= i < |items| :: items[i].status == Inherited || items[i].status == Pending)
        && forall t | t in Insertions(items) :: !Clashes(targets, t)
      ensures ok ==> r == targets + Insertions(items)
    {
      r := targets;
      var seen: set<(Kind, Text)> := {};
      for i := 0 to |items|
        invariant forall j | 0 <= j < i :: items[j].status == Inherited || items[j].status == Pending
        invariant forall t | t in Insertions(items[..i]) :: !Clashes(targets, t)
        invariant r == targets + Insertions(items[..i])
        invariant forall kind, value :: (kind, value) in seen <==>
                    ScopeTarget(kind, value, Include, false, None) in Insertions(items[..i])
      {
        var item := items[i];
        assert items[..i + 1][..i] == items[..i];
        InsertionsGrow(items, i + 1);
        if item.status == Inherited { continue; }
        if item.status != Pending { return false, r; }
        if (item.kind, item.value) in seen { continue; }
        seen := seen + {(item.kind, item.value)};
        assert Insertion(item) in Insertions(items[..i + 1]);
        var clash := FindClash(targets, Insertion(item));
        if clash { return false, r; }
        r := r + [Insertion(item)];
      }
      assert items[..|items|] == items;
      ok := true;
    }

    /** The storage's unique key, checked by the insert. */
    method FindClash(targets: seq<ScopeTarget>, t: ScopeTarget) returns (clash: bool)
      ensures clash <==> Clashes(targets, t)
    {
      for i := 0 to |targets|
        invariant forall j | 0 <= j < i :: !(targets[j].kind == t.kind && targets[j].mode == t.mode && targets[j].value == t.value)
      {
        if targets[i].kind == t.kind && targets[i].mode == t.mode && targets[i].value == t.value { return true; }
      }
      return false;
    }

    /** AuthorizeDerivedTargets: all or nothing. */
    method AuthorizeDerivedTargets(project: nat, source: nat, ids: seq<nat>,
                                   fingerprint: Fingerprint)
      returns (ok: bool)
      modifies this`scopes
      ensures ok <==> Authorizable(old(State()), project, source, ids)
                      && fingerprint == FingerprintOf(SourceScope(old(State()), source))
      ensures scopes == if ok then old(scopes)[old(runs)[source].scope := Expanded(old(State()), project, source, ids)]
                        else old(scopes)
    {
      hide Candidate, Sort, Insertions, Clashes;
      var selected := SelectedDerived(project, source, ids);
      if selected == None { return false; }
      var (scope, items) := selected.value;
      if fingerprint != FingerprintOf(scope) { return false; }
      if |scope.targets| + |items| > MAX_SCOPE_TARGETS { return false; }
      var targets;
      ok, targets := InsertPending(scope.targets, items);
      if ok { scopes := scopes[runs[source].scope := scope.(targets := targets)]; }
    }
  }

  lemma {:induction false} InsertionsGrow(items: seq<Item>, k: nat)
    requires k <= |items|
    ensures forall t | t in Insertions(items[..k]) :: t in Insertions(items)
    decreases |items| - k
  {
    if k < |items| {
      InsertionsGrow(items, k + 1);
      assert items[..k + 1][..k] == items[..k];
    } else {
      assert items[..k] == items;
    }
  }

  ghost predicate Indexes(byId: map<nat, Evidence>, evidence: seq<Evidence>) {
    forall k | 0 <= k < |evidence| :: evidence[k].observation in byId && byId[evidence[k].observation] == evidence[k]
  }

  ghost predicate PinnedItems(items: seq<Item>, byId: map<nat, Evidence>, kind: Option<Kind>) {
    forall j | 0 <= j < |items| ::
      items[j].observation in byId && Pinned(items[j], byId[items[j].observation], kind)
  }

  /** Sorting the ids only reorders the candidates. */
  lemma SelectedIsItems(db: Db, project: nat, source: nat, ids: seq<nat>)
    requires Selectable(db, project, source, ids)
    ensures var items := Selected(db, project, source, ids);
            && |items| == |ids| && Keys(items) == Keys(Items(db, source, ids))
            && SetOf(items) == SetOf(Items(db, source, ids))
            && forall j | 0 <= j < |items| :: items[j].observation in ids
  {
    hide Sort, Candidate;
    var items, plain, order := Selected(db, project, source, ids), Items(db, source, ids), Sort(ids);
    forall j | 0 <= j < |items| ensures items[j] in SetOf(plain) && items[j].observation in ids {
      assert order[j] in order;
      var i :| 0 <= i < |ids| && ids[i] == order[j];
      assert plain[i] == items[j];
      CandidateObserves(db, SourceScope(db, source), db.runs[source], ids[i]);
    }
    forall i | 0 <= i < |ids| ensures plain[i] in SetOf(items) {
      assert ids[i] in order;
      var j :| 0 <= j < |order| && order[j] == ids[i];
      assert plain[i] == items[j];
    }
    assert SetOf(items) == SetOf(plain);
    KeysFromSet(items, plain);
    KeysFromSet(plain, items);
  }

  lemma CandidateObserves(db: Db, scope: Scope, run: SourceRun, id: nat)
    requires Candidate(db, scope, run, id).Some?
    ensures Candidate(db, scope, run, id).value.observation == id
  {}

  lemma KeysFromSet(a: seq<Item>, b: seq<Item>)
    requires SetOf(a) <= SetOf(b)
    ensures Keys(a) <= Keys(b)
  {
    forall i | 0 <= i < |a| ensures (a[i].kind, a[i].value) in Keys(b) {
      assert a[i] in SetOf(a) && a[i] in SetOf(b);
      var j :| 0 <= j < |b| && b[j] == a[i];
      assert (b[j].kind, b[j].value) in Keys(b);
    }
  }

  /** Checking the sorted candidates against the index is checking each id against its evidence. */
  lemma PinnedBySelection(db: Db, project: nat, source: nat, evidence: seq<Evidence>, byId: map<nat, Evidence>,
                          kind: Option<Kind>)
    requires Selectable(db, project, source, Ids(evidence)) && Indexes(byId, evidence)
    ensures var items := Selected(db, project, source, Ids(evidence));
            && (forall j | 0 <= j < |items| :: items[j].observation in byId)
            && (PinnedItems(items, byId, kind) <==>
                  forall i | 0 <= i < |evidence| ::
                    Pinned(Candidate(db, SourceScope(db, source), db.runs[source], Ids(evidence)[i]).value, evidence[i], kind))
  {
    hide Sort, Candidate;
    var ids := Ids(evidence);
    SelectedIsItems(db, project, source, ids);
    var items, plain := Selected(db, project, source, ids), Items(db, source, ids);
    forall i | 0 <= i < |evidence| ensures plain[i].observation == evidence[i].observation {
      CandidateObserves(db, SourceScope(db, source), db.runs[source], ids[i]);
    }
    PinnedFromSet(items, plain, byId, kind);
    PinnedFromSet(plain, items, byId, kind);
    PinnedOneByOne(plain, evidence, byId, kind);
  }

  lemma PinnedFromSet(a: seq<Item>, b: seq<Item>, byId: map<nat, Evidence>, kind: Option<Kind>)
    requires SetOf(a) <= SetOf(b)
    ensures PinnedItems(b, byId, kind) ==> PinnedItems(a, byId, kind)
    ensures (forall j | 0 <= j < |b| :: b[j].observation in byId) ==> forall j | 0 <= j < |a| :: a[j].observation in byId
  {
    forall j | 0 <= j < |a| ensures exists k :: 0 <= k < |b| && b[k] == a[j] {
      assert a[j] in SetOf(a) && a[j] in SetOf(b);
    }
  }

  lemma PinnedOneByOne(items: seq<Item>, evidence: seq<Evidence>, byId: map<nat, Evidence>, kind: Option<Kind>)
    requires |items| == |evidence| && Indexes(byId, evidence)
    requires forall i | 0 <= i < |items| :: items[i].observation == evidence[i].observation
    ensures PinnedItems(items, byId, kind) <==> forall i | 0 <= i < |items| :: Pinned(items[i], evidence[i], kind)
    ensures forall i | 0 <= i < |items| :: items[i].observation in byId
  {
    forall i | 0 <= i < |items| ensures items[i].observation in byId && byId[items[i].observation] == evidence[i] {
      assert evidence[i].observation in byId;
    }
  }

  predicate HasValue(items: seq<Item>, v: Text) {
    exists i | 0 <= i < |items| :: items[i].value == v
  }

  lemma HasValueAppend(items: seq<Item>, last: Item)
    ensures forall v :: HasValue(items + [last], v) <==> HasValue(items, v) || v == last.value
  {
    var all := items + [last];
    assert all[|items|] == last;
    assert forall i | 0 <= i < |items| :: all[i] == items[i];
  }

  lemma SetOfAppend<T>(s: seq<T>, i: nat)
    requires i < |s|
    ensures SetOf(s[..i + 1]) == SetOf(s[..i]) + {s[i]}
  {
    assert s[..i + 1][i] == s[i];
    assert forall k | 0 <= k < i :: s[..i + 1][k] == s[..i][k];
  }

  lemma NotCheckedOff<T>(s: seq<T>, keys: set<T>, i: nat)
    requires i < |s| && (s[i] in SetOf(s[..i]) || s[i] !in keys)
    ensures !Distinct(s) || SetOf(s) != keys
  {
    assert s[i] in SetOf(s);
  }
}

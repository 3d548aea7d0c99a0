/** What continuation snapshots and scope expansions guarantee. */
module Continuation {
  import opened Options
  import opened Targets
  import opened UrlRules
  import opened ScopeDecision
  import opened Inheritance

  // --------------------------------------------------- captured snapshots hold

  lemma {:induction false} FirstByValueKeeps(items: seq<Item>)
    ensures forall i | 0 <= i < |FirstByValue(items)| :: FirstByValue(items)[i] in items
    ensures forall i, j | 0 <= i < j < |FirstByValue(items)| :: FirstByValue(items)[i].value != FirstByValue(items)[j].value
    ensures items != [] ==> FirstByValue(items) != []
    ensures |FirstByValue(items)| <= |items|
    decreases |items|
  {
    if items != [] {
      FirstByValueKeeps(items[..|items|-1]);
      assert forall x | x in items[..|items|-1] :: x in items;
    }
  }

  /** A captured item's value is what its fact normalises to, or a text that does not normalise. */
  lemma CandidateValue(db: Db, scope: Scope, run: SourceRun, id: nat)
    requires Candidate(db, scope, run, id).Some?
    ensures var item := Candidate(db, scope, run, id).value;
            && item.observation == id && item.hash == db.observations[id].content
            && item.observedAt == db.observations[id].observedAt
            && (NormalizeTargetValue(item.kind, item.value).Some? ==>
                  NormalizeTargetValue(item.kind, item.value).value == item.value)
            && (NormalizeTargetValue(item.kind, item.value).Some? <==>
                  NormalizeTargetValue(item.kind, db.observations[id].fact.value.text).Some?)
  {
    var o := db.observations[id];
    var (kind, text) := (o.fact.value.kind.value, o.fact.value.text);
    if NormalizeTargetValue(kind, text).Some? { NormalizedParses(kind, text); }
  }

  lemma ItemsOfKept(db: Db, project: nat, source: nat, ids: seq<nat>)
    requires Selectable(db, project, source, ids)
    ensures var kept := FirstByValue(Selected(db, project, source, ids));
            var again := Ids(EvidenceOf(kept));
            Selectable(db, project, source, again) && Items(db, source, again) == kept
  {
    hide Sort, Candidate;
    var items := Selected(db, project, source, ids);
    var kept := FirstByValue(items);
    var again := Ids(EvidenceOf(kept));
    FirstByValueKeeps(items);
    SelectedIsItems(db, project, source, ids);
    var scope, run := SourceScope(db, source), db.runs[source];
    forall i | 0 <= i < |kept|
      ensures again[i] in ids && Candidate(db, scope, run, again[i]) == Some(kept[i])
    {
      SelectedMember(db, project, source, ids, kept[i]);
    }
    forall i, j | 0 <= i < j < |again| ensures again[i] != again[j] {
      assert Candidate(db, scope, run, again[i]) == Some(kept[i]) && Candidate(db, scope, run, again[j]) == Some(kept[j]);
      assert kept[i].value != kept[j].value;
    }
    assert 0 !in again by { assert forall i | 0 <= i < |again| :: again[i] in ids; }
  }

  lemma SelectedMember(db: Db, project: nat, source: nat, ids: seq<nat>, item: Item)
    requires Selectable(db, project, source, ids) && item in Selected(db, project, source, ids)
    ensures item.observation in ids
            && Candidate(db, SourceScope(db, source), db.runs[source], item.observation) == Some(item)
  {
    hide Sort, Candidate;
    SelectedIsItems(db, project, source, ids);
    var items, plain := Selected(db, project, source, ids), Items(db, source, ids);
    var j :| 0 <= j < |items| && items[j] == item;
    assert items[j] in SetOf(items) && items[j] in SetOf(plain);
    var i :| 0 <= i < |plain| && plain[i] == item;
    CandidateObserves(db, SourceScope(db, source), db.runs[source], ids[i]);
  }

  /** A snapshot captured for a task validates at once exactly when every captured value is a
      well-formed target of its kind: the one way creation fails after its own selection. */
  lemma CapturedValidates(db: Db, project: nat, source: nat, task: TaskType, ids: seq<nat>)
    requires ContinuationKind(task).Some?
    requires Captured(db, project, source, ContinuationKind(task).value, ids).Some?
    ensures var snap := Captured(db, project, source, ContinuationKind(task).value, ids).value;
            Validates(db, project, SourceScope(db, source).id, task, snap) <==> Parses(snap.targets)
  {
    hide Sort, Candidate;
    var kind := ContinuationKind(task).value;
    var snap := Captured(db, project, source, kind, ids).value;
    var items := Selected(db, project, source, ids);
    var kept := FirstByValue(items);
    var again := Ids(snap.evidence);
    var scope, run := SourceScope(db, source), db.runs[source];
    FirstByValueKeeps(items);
    ItemsOfKept(db, project, source, ids);
    assert |kept| <= |items| == |ids| by { SelectedIsItems(db, project, source, ids); }
    if Parses(snap.targets) {
      var config := DispatchTargets(snap.targets);
      forall i | 0 <= i < |kept|
        ensures config[i] == (kept[i].kind, kept[i].value)
        ensures Pinned(Candidate(db, scope, run, again[i]).value, snap.evidence[i], Some(kind))
      {
        assert Items(db, source, again)[i] == kept[i];
        assert kept[i] in items;
        CandidateValue(db, scope, run, again[i]);
        assert NormalizeTargetValue(snap.targets[i].0, snap.targets[i].1).Some?;
      }
      assert SetOf(config) == Keys(kept);
    }
  }

  /** Validation reads only the source run, its scope, the pinned observations and the network
      attributions, and of time only whether the scope is in force. */
  lemma ValidationFrame(db: Db, later: Db, project: nat, scopeId: nat, task: TaskType, snap: Snapshot)
    requires snap.source in db.runs && db.runs[snap.source].scope in db.scopes
    requires snap.source in later.runs && later.runs[snap.source] == db.runs[snap.source]
    requires db.runs[snap.source].scope in later.scopes
             && later.scopes[db.runs[snap.source].scope] == db.scopes[db.runs[snap.source].scope]
    requires forall i | 0 <= i < |snap.evidence| ::
               var id := snap.evidence[i].observation;
               (id in later.observations <==> id in db.observations)
               && (id in db.observations ==> later.observations[id] == db.observations[id])
    requires later.edges == db.edges
    requires InForce(SourceScope(db, snap.source), later.now) <==> InForce(SourceScope(db, snap.source), db.now)
    ensures Validates(later, project, scopeId, task, snap) <==> Validates(db, project, scopeId, task, snap)
  {
    var ids := Ids(snap.evidence);
    var scope, run := SourceScope(db, snap.source), db.runs[snap.source];
    forall i | 0 <= i < |ids| ensures Candidate(later, scope, run, ids[i]) == Candidate(db, scope, run, ids[i]) {
      var id := snap.evidence[i].observation;
      assert ids[i] == id;
    }
    hide Candidate, Sort, DispatchTargets, Parses;
    if Selectable(db, project, snap.source, ids) {
      assert Items(later, snap.source, ids) == Items(db, snap.source, ids);
    }
  }

  // ------------------------------------------------- valid snapshots are sound

  /** What backs a dispatched target: live, unmodified, materialized evidence of the completed
      source run of the project, allowed by the scope in force and not a CDN edge. */
  ghost predicate Backed(db: Db, project: nat, source: nat, evidence: Evidence, target: (Kind, Text)) {
    && source in db.runs && db.runs[source].project == project && db.runs[source].complete
    && db.runs[source].scope in db.scopes && evidence.observation in db.observations
    && var o := db.observations[evidence.observation];
       && o.run == source && o.project == project && o.owner == db.runs[source].owner
       && o.asset && o.materialized && o.content == evidence.hash && o.observedAt == evidence.observedAt
       && ObservationTarget(o) == Some(target)
       && AllowedNow(db.scopes[db.runs[source].scope], db.now, target.0, target.1)
       && !(target.0 == Ip && target.1 in db.edges)
  }

  lemma PinnedBacks(db: Db, project: nat, source: nat, evidence: Evidence, kind: Option<Kind>, id: nat)
    requires SourceOk(db, project, source)
    requires var c := Candidate(db, SourceScope(db, source), db.runs[source], id);
             c.Some? && Pinned(c.value, evidence, kind)
    ensures var item := Candidate(db, SourceScope(db, source), db.runs[source], id).value;
            Backed(db, project, source, evidence, (item.kind, item.value))
  {}

  lemma {:induction false} DistinctSize<T>(s: seq<T>)
    ensures |SetOf(s)| <= |s| && (|SetOf(s)| == |s| <==> Distinct(s))
    decreases |s|
  {
    if s == [] {
      assert SetOf(s) == {};
    } else {
      var n := |s| - 1;
      DistinctSize(s[..n]);
      SetOfAppend(s, n);
      assert s[..n + 1] == s;
      if s[n] in SetOf(s[..n]) {
        var i :| 0 <= i < n && s[..n][i] == s[n];
        assert s[i] == s[n];
        assert SetOf(s) == SetOf(s[..n]);
      } else {
        assert |SetOf(s)| == |SetOf(s[..n])| + 1;
        forall i | 0 <= i < n ensures s[i] != s[n] { assert s[..n][i] in SetOf(s[..n]); }
        assert Distinct(s[..n]) <==> Distinct(s) by {
          assert forall i | 0 <= i < n :: s[..n][i] == s[i];
        }
      }
    }
  }

  ghost predicate OneToOne(f: seq<nat>, n: nat) {
    |f| == n && Distinct(f) && forall i | 0 <= i < n :: f[i] < n
  }

  /** Two lists without repetition and with the same elements are matched one to one. */
  lemma Matching<T>(a: seq<T>, b: seq<T>) returns (f: seq<nat>)
    requires Distinct(a) && SetOf(a) == SetOf(b) && |a| == |b|
    ensures OneToOne(f, |a|) && forall i | 0 <= i < |a| :: b[f[i]] == a[i]
  {
    forall i | 0 <= i < |a| ensures exists k: nat :: k < |b| && b[k] == a[i] {
      assert a[i] in SetOf(a) && a[i] in SetOf(b);
    }
    f := seq(|a|, i requires 0 <= i < |a| => IndexOf(b, a[i]));
  }

  ghost function IndexOf<T>(s: seq<T>, x: T): (k: nat)
    requires exists k: nat :: k < |s| && s[k] == x
    ensures k < |s| && s[k] == x
  {
    var k: nat :| k < |s| && s[k] == x; k
  }

  /** The targets of a valid snapshot correspond one to one to its evidence, and each is backed. */
  lemma ValidSnapshotsAreSound(db: Db, project: nat, scopeId: nat, task: TaskType, snap: Snapshot) returns (f: seq<nat>)
    requires Validates(db, project, scopeId, task, snap)
    ensures var targets := DispatchTargets(snap.targets);
            && |targets| == |snap.evidence| > 0 && Distinct(targets) && Distinct(Ids(snap.evidence))
            && OneToOne(f, |targets|)
            && forall i | 0 <= i < |targets| ::
                 && Backed(db, project, snap.source, snap.evidence[i], targets[f[i]])
                 && ContinuationKind(task) == Some(targets[f[i]].0)
  {
    hide Sort, Candidate;
    var ids := Ids(snap.evidence);
    var items := Items(db, snap.source, ids);
    var targets, keys := DispatchTargets(snap.targets), TargetsOf(items);
    assert SetOf(keys) == Keys(items) by { KeysAreTargets(items); }
    DistinctSize(targets);
    DistinctSize(keys);
    f := Matching(keys, targets);
    forall i | 0 <= i < |keys|
      ensures Backed(db, project, snap.source, snap.evidence[i], keys[i]) && ContinuationKind(task) == Some(keys[i].0)
    {
      PinnedBacks(db, project, snap.source, snap.evidence[i], ContinuationKind(task), ids[i]);
    }
  }

  lemma KeysAreTargets(items: seq<Item>)
    ensures SetOf(TargetsOf(items)) == Keys(items)
  {
    var keys := TargetsOf(items);
    forall i | 0 <= i < |items| ensures (items[i].kind, items[i].value) in SetOf(keys) { assert keys[i] in SetOf(keys); }
  }

  // ------------------------------------------- what a confirmed expansion does

  lemma {:induction false} InsertionMembers(items: seq<Item>, t: ScopeTarget)
    ensures t in Insertions(items) <==>
            exists i | 0 <= i < |items| :: items[i].status == Pending && Insertion(items[i]) == t
    decreases |items|
  {
    if items != [] {
      var n := |items| - 1;
      InsertionMembers(items[..n], t);
      InsertionMembers(items[..n], Insertion(items[n]));
      if t in Insertions(items[..n]) {
        var i :| 0 <= i < n && items[..n][i].status == Pending && Insertion(items[..n][i]) == t;
        assert items[i] == items[..n][i];
      }
      if exists i | 0 <= i < |items| :: items[i].status == Pending && Insertion(items[i]) == t {
        var i :| 0 <= i < |items| && items[i].status == Pending && Insertion(items[i]) == t;
        if i < n { assert items[..n][i] == items[i]; }
      }
    }
  }

  /** The row inserted for a derived target matches that target exactly when the target parses to
      the kind it is inserted under. */
  lemma OwnInsertion(item: Item, text: Text)
    requires Targetable(item.kind) && ParseTypedTarget(item.kind, item.value).Some?
    requires item.value == if NormalizeTargetValue(item.kind, text).Some?
                           then NormalizeTargetValue(item.kind, text).value else text
    ensures MatchTarget(Insertion(item), ParseTypedTarget(item.kind, item.value).value)
            <==> ParseTypedTarget(item.kind, item.value).value.kind == item.kind
  {
    var parsed := ParseTypedTarget(item.kind, item.value).value;
    if item.value.HostText? { NameOrAddress(item.value.host); }
    if NormalizeTargetValue(item.kind, text).Some? {
      NormalizedParses(item.kind, text);
    } else {
      ParsesIffNormalizes(item.kind, text);
    }
  }

  /** A confirmed expansion: excluded targets stay excluded, nothing allowed is revoked, only
      candidates matched by an inserted row change, and exactly those become allowed. */
  lemma ExpansionEffect(db: Db, project: nat, source: nat, ids: seq<nat>, c: Parsed)
    requires Authorizable(db, project, source, ids)
    ensures var before := SourceScope(db, source).targets;
            var added := Insertions(Selected(db, project, source, ids));
            DecisionOf(Expanded(db, project, source, ids).targets, c) ==
              if DecisionOf(before, c) != Excluded && Granted(added, c, Specialized(before, c)) then Allowed
              else DecisionOf(before, c)
  {
    hide Sort, Candidate, MatchTarget, Specializes;
    var items := Selected(db, project, source, ids);
    var added := Insertions(items);
    forall t | t in added ensures t.mode == Include && t.rule == None { InsertionMembers(items, t); }
    AddingPlainIncludes(SourceScope(db, source).targets, added, c);
  }

  /** Every confirmed pending target becomes allowed if its value is a well-formed target of its
      kind; one that is not becomes allowed only through another row of the same batch. */
  lemma ConfirmedTargets(db: Db, project: nat, source: nat, ids: seq<nat>, item: Item)
    requires Authorizable(db, project, source, ids)
    requires item in Selected(db, project, source, ids) && item.status == Pending
    ensures var parsed := ParseTypedTarget(item.kind, item.value);
            && parsed.Some?
            && (DecisionOf(Expanded(db, project, source, ids).targets, parsed.value) == Allowed <==>
                  || NormalizeTargetValue(item.kind, item.value).Some?
                  || exists t | t in Insertions(Selected(db, project, source, ids)) ::
                       t != Insertion(item) && MatchTarget(t, parsed.value))
  {
    var items := Selected(db, project, source, ids);
    var scope, run := SourceScope(db, source), db.runs[source];
    SelectedMember(db, project, source, ids, item);
    PendingMeans(db, scope, run, item.observation);
    var parsed := ParseTypedTarget(item.kind, item.value).value;
    var added := Insertions(items);
    InsertionMembers(items, Insertion(item));
    ParsesIffNormalizes(item.kind, item.value);
    ExpansionEffect(db, project, source, ids, parsed);
    forall t | t in added ensures t.mode == Include { InsertionMembers(items, t); }
    hide MatchTarget, Sort, Candidate, Insertions, ParseTypedTarget, NormalizeTargetValue, Specializes;
    assert Granted(added, parsed, false) <==> exists t | t in added :: MatchTarget(t, parsed);
  }

  /** What a pending status says about an observation. */
  lemma PendingMeans(db: Db, scope: Scope, run: SourceRun, id: nat)
    requires Candidate(db, scope, run, id).Some? && Candidate(db, scope, run, id).value.status == Pending
    ensures var item := Candidate(db, scope, run, id).value;
            && Targetable(item.kind) && ParseTypedTarget(item.kind, item.value).Some?
            && DecisionOf(scope.targets, ParseTypedTarget(item.kind, item.value).value) == NoMatch
            && !Specialized(scope.targets, ParseTypedTarget(item.kind, item.value).value)
            && (MatchTarget(Insertion(item), ParseTypedTarget(item.kind, item.value).value)
                <==> ParseTypedTarget(item.kind, item.value).value.kind == item.kind)
  {
    var item := Candidate(db, scope, run, id).value;
    OwnInsertion(item, db.observations[id].fact.value.text);
  }

  // ----------------------------------------------------- a changed parent

  /** The database after the source run's scope row was replaced. */
  function WithParent(db: Db, source: nat, parent: Scope): Db
    requires source in db.runs
  {
    db.(scopes := db.scopes[db.runs[source].scope := parent])
  }

  /** The scope's policy allows the target the pinned observation stands for. */
  ghost predicate AllowsPinned(db: Db, parent: Scope, evidence: Evidence) {
    && evidence.observation in db.observations
    && var target := ObservationTarget(db.observations[evidence.observation]);
       && target.Some? && ParseTypedTarget(target.value.0, target.value.1).Some?
       && DecisionOf(parent.targets, ParseTypedTarget(target.value.0, target.value.1).value) == Allowed
  }

  /** Under a new parent a pinned candidate is the same fact, inherited iff the parent, in force,
      allows it. */
  lemma PinnedUnder(db: Db, parent: Scope, run: SourceRun, evidence: Evidence, kind: Option<Kind>, later: Db, earlier: Scope)
    requires run.complete && later.observations == db.observations && later.edges == db.edges
    requires Candidate(db, earlier, run, evidence.observation).Some?
             && Pinned(Candidate(db, earlier, run, evidence.observation).value, evidence, kind)
    ensures var c := Candidate(later, parent, run, evidence.observation);
            c.Some? && c.value == Candidate(db, earlier, run, evidence.observation).value.(status := c.value.status)
    ensures InForce(parent, later.now) ==>
              (Pinned(Candidate(later, parent, run, evidence.observation).value, evidence, kind)
               <==> AllowsPinned(db, parent, evidence))
  {
    hide DecisionOf, ParseTypedTarget, NormalizeTargetValue;
  }

  /** Exactly which parents keep a valid snapshot valid: after any replacement of the scope row the
      snapshot validates iff the row keeps its id, project and owner, is in force, and its policy
      still allows every pinned target. Nothing else of the parent is looked at. */
  lemma ParentReplaced(db: Db, project: nat, scopeId: nat, task: TaskType, snap: Snapshot, parent: Scope)
    requires Validates(db, project, scopeId, task, snap)
    ensures Validates(WithParent(db, snap.source, parent), project, scopeId, task, snap) <==>
              && parent.id == scopeId && parent.project == project && parent.owner == db.runs[snap.source].owner
              && InForce(parent, db.now)
              && forall i | 0 <= i < |snap.evidence| :: AllowsPinned(db, parent, snap.evidence[i])
  {
    hide Candidate, DispatchTargets, Parses, DecisionOf, AllowsPinned, InForce;
    var later := WithParent(db, snap.source, parent);
    var ids, run, scope := Ids(snap.evidence), db.runs[snap.source], SourceScope(db, snap.source);
    assert SourceScope(later, snap.source) == parent;
    forall i | 0 <= i < |ids|
      ensures var c := Candidate(later, parent, run, ids[i]);
              c.Some? && c.value == Candidate(db, scope, run, ids[i]).value.(status := c.value.status)
      ensures InForce(parent, db.now) ==>
                (Pinned(Candidate(later, parent, run, ids[i]).value, snap.evidence[i], ContinuationKind(task))
                 <==> AllowsPinned(db, parent, snap.evidence[i]))
    {
      PinnedUnder(db, parent, run, snap.evidence[i], ContinuationKind(task), later, scope);
    }
    if SourceOk(later, project, snap.source) {
      SameKeys(Items(later, snap.source, ids), Items(db, snap.source, ids));
    }
  }

  lemma SameKeys(a: seq<Item>, b: seq<Item>)
    requires |a| == |b| && forall i | 0 <= i < |a| :: a[i].kind == b[i].kind && a[i].value == b[i].value
    ensures Keys(a) == Keys(b)
  {
    assert forall i | 0 <= i < |a| :: (a[i].kind, a[i].value) in Keys(b) && (b[i].kind, b[i].value) in Keys(a);
  }

  /** The stored fingerprint is not compared: every valid snapshot stays valid under a parent whose
      fingerprint differs from the stored one, here for an exclusion that matches nothing. */
  lemma FingerprintIsNotCompared(db: Db, project: nat, scopeId: nat, task: TaskType, snap: Snapshot)
    returns (parent: Scope)
    requires Validates(db, project, scopeId, task, snap)
    requires snap.fingerprint == FingerprintOf(SourceScope(db, snap.source))
    ensures FingerprintOf(parent) != snap.fingerprint
    ensures Validates(WithParent(db, snap.source, parent), project, scopeId, task, snap)
  {
    hide MatchTarget, Specializes, DispatchTargets, Parses, NormalizeTargetValue, ParseTypedTarget;
    var scope := SourceScope(db, snap.source);
    var idle := ScopeTarget(Ip, Junk(0), Exclude, false, None);
    parent := scope.(targets := scope.targets + [idle]);
    assert |parent.targets| == |scope.targets| + 1;
    forall i | 0 <= i < |snap.evidence| ensures AllowsPinned(db, parent, snap.evidence[i]) {
      var id := Ids(snap.evidence)[i];
      var c := Candidate(db, scope, db.runs[snap.source], id).value;
      var parsed := ParseTypedTarget(c.kind, c.value).value;
      IdleExclusion(idle, parsed);
      AddingExclusion(scope.targets, idle, parsed);
    }
    ParentReplaced(db, project, scopeId, task, snap, parent);
  }

  lemma IdleExclusion(t: ScopeTarget, c: Parsed)
    requires t.kind == Ip && t.value.Junk?
    ensures !MatchTarget(t, c)
  {}

  // ------------------------------------------------------ concrete databases

  /** One finished run with one materialized asset observation under a scope in force. */
  function Sample(kind: Kind, text: Text, targets: seq<ScopeTarget>): Db {
    Db(map[1 := SourceRun(1, 1, 1, 1, true)], map[1 := Scope(1, 1, 1, true, 0, 10, targets)],
       map[1 := Observation(1, 1, 1, true, true, Some(Fact(Some(kind), text)), 7, 3)], {}, 5)
  }

  lemma SampleSelected(kind: Kind, text: Text, targets: seq<ScopeTarget>) returns (item: Item)
    requires Targetable(kind)
    ensures var db := Sample(kind, text, targets);
            && Selectable(db, 1, 1, [1]) && Selected(db, 1, 1, [1]) == [item]
            && Candidate(db, SourceScope(db, 1), db.runs[1], 1) == Some(item)
            && item.kind == kind
            && item.value == (if NormalizeTargetValue(kind, text).Some? then NormalizeTargetValue(kind, text).value else text)
            && item.status == StatusOf(SourceScope(db, 1), 5, db.runs[1], kind, item.value)
  {
    hide StatusOf, NormalizeTargetValue, Sort;
    var db := Sample(kind, text, targets);
    item := SampleCandidate(kind, text, targets);
    SortOne();
    hide Candidate;
    assert Items(db, 1, [1]) == [item];
  }

  lemma SampleCandidate(kind: Kind, text: Text, targets: seq<ScopeTarget>) returns (item: Item)
    requires Targetable(kind)
    ensures var db := Sample(kind, text, targets);
            && SourceOk(db, 1, 1) && Candidate(db, SourceScope(db, 1), db.runs[1], 1) == Some(item)
            && item.kind == kind
            && item.value == (if NormalizeTargetValue(kind, text).Some? then NormalizeTargetValue(kind, text).value else text)
            && item.status == StatusOf(SourceScope(db, 1), 5, db.runs[1], kind, item.value)
  {
    hide StatusOf, NormalizeTargetValue;
    var db := Sample(kind, text, targets);
    item := Candidate(db, SourceScope(db, 1), db.runs[1], 1).value;
  }

  lemma SortOne()
    ensures Sort([1]) == [1]
  {
    assert [1][..0] == [] && Sort([1]) == Insert(Sort([]), 1) == [1];
  }

  /** The changed-parent statement is about real snapshots: this one is captured and validates. */
  lemma SomeSnapshotValidates() returns (db: Db, snap: Snapshot)
    ensures Captured(db, 1, 1, Domain, [1]) == Some(snap)
    ensures Validates(db, 1, 1, Dns, snap) && snap.fingerprint == FingerprintOf(SourceScope(db, snap.source))
  {
    var text := HostText([Word("dragon"), Word("com")]);
    var grant := ScopeTarget(Domain, text, Include, false, None);
    db := Sample(Domain, text, [grant]);
    NameOrAddress(text.host);
    var item := SampleSelected(Domain, text, [grant]);
    var parsed := ParseTypedTarget(Domain, text).value;
    assert MatchTarget(grant, parsed) && grant in [grant];
    assert DecisionOf([grant], parsed) == Allowed;
    assert item.status == Inherited;
    snap := Captured(db, 1, 1, Domain, [1]).value;
    assert [item][..0] == [] && FirstByValue([item]) == [item];
    assert Parses(snap.targets);
    CapturedValidates(db, 1, 1, Dns, [1]);
  }

  /** The failing family is not empty: an address recorded as a domain is pending, its expansion is
      accepted and stored, and the stored scope still does not match it. */
  lemma MisfiledAddress() returns (db: Db, item: Item)
    ensures Authorizable(db, 1, 1, [1]) && Selected(db, 1, 1, [1]) == [item] && item.status == Pending
    ensures Insertion(item) in Expanded(db, 1, 1, [1]).targets
    ensures ParseTypedTarget(item.kind, item.value).Some?
    ensures DecisionOf(Expanded(db, 1, 1, [1]).targets, ParseTypedTarget(item.kind, item.value).value) == NoMatch
  {
    var h := [Num(8), Num(8), Num(4), Num(4)];
    db := Sample(Domain, HostText(h), []);
    assert Ipv4(h) && Address(h) == 0x08080404 && !DangerousIp(h);
    assert !ValidDomain(h) by { NameOrAddress(h); }
    item := SampleSelected(Domain, HostText(h), []);
    var parsed := ParseTypedTarget(Domain, item.value).value;
    assert DecisionOf([], parsed) == NoMatch;
    assert [item][..0] == [] && Insertions([item]) == [Insertion(item)];
    assert [] + [Insertion(item)] == [Insertion(item)];
    assert !MatchTarget(Insertion(item), parsed);
    assert DecisionOf([Insertion(item)], parsed) == NoMatch;
  }
}

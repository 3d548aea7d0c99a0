/** What derived targets mean: their status, what a snapshot captures of them, what confirming them
    adds to a scope. */
module DerivedTargets {
  import opened Options
  import opened Targets
  import opened UrlRules
  import opened ScopeDecision
  import opened Coverage
  import opened Inheritance
  import opened Continuation

  // ------------------------------------------------------------------- status

  /** The status of a derived target: inherited exactly if dispatch would accept it now and its run is
      complete; pending if only a confirmation is missing; blocked if only the window or the run
      stands in the way; refused for a text that is no target, a policy that forbids it, or a CDN
      edge. */
  lemma StatusMeans(db: Db, scope: Scope, run: SourceRun, id: nat)
    requires Candidate(db, scope, run, id).Some?
    ensures var item := Candidate(db, scope, run, id).value;
            var parsed := ParseTypedTarget(item.kind, item.value);
            var edge := item.kind == Ip && item.value in db.edges;
            var open := scope.active && scope.from <= db.now <= scope.until && run.complete;
            && (item.status == Inherited <==>
                  !edge && run.complete && AllowedNow(scope, db.now, item.kind, item.value))
            && (item.status == Pending <==>
                  !edge && open && parsed.Some? && DecisionOf(scope.targets, parsed.value) == NoMatch)
            && (item.status == Blocked <==> !edge && !open && parsed.Some?)
            && (item.status == Refused <==>
                  edge || parsed == None
                  || (open && DecisionOf(scope.targets, parsed.value) in {Excluded, Restricted}))
  {
    hide DecisionOf, ParseTypedTarget, NormalizeTargetValue;
  }

  /** Time only opens and closes the window: at all times in force a derived target of a complete run
      has one and the same status, never blocked; at all others it is blocked or refused. */
  lemma StatusOverTime(db: Db, scope: Scope, run: SourceRun, id: nat, now: nat)
    requires run.complete && Candidate(db, scope, run, id).Some?
    ensures var later := Candidate(db.(now := now), scope, run, id);
            && later.Some? && later.value == Candidate(db, scope, run, id).value.(status := later.value.status)
            && (InForce(scope, db.now) && InForce(scope, now) ==> later == Candidate(db, scope, run, id))
            && (InForce(scope, now) ==> later.value.status != Blocked)
            && (!InForce(scope, now) ==> later.value.status == Blocked || later.value.status == Refused)
  {
    hide DecisionOf, ParseTypedTarget, NormalizeTargetValue;
  }

  // ---------------------------------------------------------------- snapshots

  /** The kind of target each task continues from. */
  lemma TaskTargets(db: Db, project: nat, scopeId: nat, task: TaskType, snap: Snapshot, i: nat)
    requires Validates(db, project, scopeId, task, snap) && i < |snap.targets|
    ensures task != OtherTask && snap.parent == scopeId && db.runs[snap.source].scope == scopeId
    ensures snap.targets[i].0 == (if task == Dns || task == PassiveIntel then Domain
                                  else if task == PortProbe then Ip else Url)
  {
    hide Sort, Candidate;
    var ids := Ids(snap.evidence);
    var items := Items(db, snap.source, ids);
    var config := DispatchTargets(snap.targets);
    assert config[i] in SetOf(config) && config[i] in Keys(items);
    var j :| 0 <= j < |items| && (items[j].kind, items[j].value) == config[i];
    assert Pinned(items[j], snap.evidence[j], ContinuationKind(task));
  }

  lemma {:induction false} FirstByValueCovers(items: seq<Item>, i: nat)
    requires i < |items|
    ensures HasValue(FirstByValue(items), items[i].value)
    decreases |items|
  {
    var n := |items| - 1;
    if i < n {
      FirstByValueCovers(items[..n], i);
      HasValueAppend(FirstByValue(items[..n]), items[n]);
    } else if !HasValue(FirstByValue(items[..n]), items[n].value) {
      HasValueAppend(FirstByValue(items[..n]), items[n]);
    }
  }

  /** A capture keeps every selected value, once, each with the evidence of an observation it was
      derived from. */
  lemma CaptureIsComplete(db: Db, project: nat, source: nat, kind: Kind, ids: seq<nat>)
    requires Captured(db, project, source, kind, ids).Some?
    ensures var snap := Captured(db, project, source, kind, ids).value;
            && SetOf(snap.targets) == Keys(Selected(db, project, source, ids)) && Distinct(snap.targets)
            && |snap.targets| == |snap.evidence| <= |ids| <= 100 && Distinct(ids) && 0 !in ids
            && forall i | 0 <= i < |snap.targets| ::
                 && snap.evidence[i].observation in ids
                 && Candidate(db, SourceScope(db, source), db.runs[source], snap.evidence[i].observation)
                    == Some(Item(snap.evidence[i].observation, snap.targets[i].0, snap.targets[i].1, Inherited,
                                 snap.evidence[i].hash, snap.evidence[i].observedAt))
  {
    hide Sort, Candidate;
    var items := Selected(db, project, source, ids);
    var kept, snap := FirstByValue(items), Captured(db, project, source, kind, ids).value;
    FirstByValueKeeps(items);
    forall i | 0 <= i < |kept|
      ensures snap.targets[i] in Keys(items) && kept[i].observation in ids && kept[i].status == Inherited
      ensures Candidate(db, SourceScope(db, source), db.runs[source], kept[i].observation) == Some(kept[i])
    {
      assert kept[i] in items;
      SelectedMember(db, project, source, ids, kept[i]);
    }
    forall key | key in Keys(items) ensures key in SetOf(snap.targets) {
      var i :| 0 <= i < |items| && (items[i].kind, items[i].value) == key;
      FirstByValueCovers(items, i);
      var k :| 0 <= k < |kept| && kept[k].value == items[i].value;
      assert kept[k] in items;
      assert snap.targets[k] == key;
    }
  }

  // --------------------------------------------------------------- expansions

  /** The candidate has the very domain, address or URL of the item. */
  predicate Names(item: Item, c: Parsed) {
    match (item.kind, item.value)
    case (Domain, HostText(h)) => ValidDomain(h) && c.domain == h
    case (Ip, HostText(h)) => Ipv4(h) && c.ip == Some(h)
    case (Url, UrlText(_, _, _, _)) => c.value == item.value
    case _ => false
  }

  ghost predicate Confirmed(items: seq<Item>, c: Parsed, urlsOnly: bool) {
    exists i | 0 <= i < |items| :: items[i].status == Pending && Names(items[i], c) && (urlsOnly ==> items[i].kind == Url)
  }

  lemma PendingReaches(db: Db, scope: Scope, run: SourceRun, id: nat, c: Parsed)
    requires Candidate(db, scope, run, id).Some? && Candidate(db, scope, run, id).value.status == Pending
    ensures var item := Candidate(db, scope, run, id).value;
            MatchTarget(Insertion(item), c) <==> Names(item, c)
  {
    var item := Candidate(db, scope, run, id).value;
    PendingMeans(db, scope, run, id);
    CandidateValue(db, scope, run, id);
    ParsesIffNormalizes(item.kind, item.value);
    MatchIsReach(Insertion(item), c);
    if item.value.HostText? { NameOrAddress(item.value.host); }
  }

  /** Confirming derived targets adds exact targets only: the decision changes exactly for candidates
      that were not excluded and have the very domain, address or URL of a confirmed pending item,
      under a site rule only the URL of one, and it changes to allowed. */
  lemma ExactExpansion(db: Db, project: nat, source: nat, ids: seq<nat>, c: Parsed)
    requires Authorizable(db, project, source, ids)
    ensures var before := SourceScope(db, source).targets;
            DecisionOf(Expanded(db, project, source, ids).targets, c) ==
              if DecisionOf(before, c) != Excluded
                 && Confirmed(Selected(db, project, source, ids), c, Specialized(before, c))
              then Allowed else DecisionOf(before, c)
  {
    var before, items := SourceScope(db, source).targets, Selected(db, project, source, ids);
    var added, urlsOnly := Insertions(items), Specialized(before, c);
    ExpansionEffect(db, project, source, ids, c);
    hide Sort, Candidate, MatchTarget, Specialized, DecisionOf, Names;
    forall i | 0 <= i < |items| && items[i].status == Pending
      ensures MatchTarget(Insertion(items[i]), c) <==> Names(items[i], c)
      ensures Insertion(items[i]) in added
    {
      SelectedMember(db, project, source, ids, items[i]);
      PendingReaches(db, SourceScope(db, source), db.runs[source], items[i].observation, c);
      InsertionMembers(items, Insertion(items[i]));
    }
    if Granted(added, c, urlsOnly) {
      var t :| t in added && t.mode == Include && (urlsOnly ==> t.kind == Url) && MatchTarget(t, c);
      InsertionMembers(items, t);
      var i :| 0 <= i < |items| && items[i].status == Pending && Insertion(items[i]) == t;
      assert Names(items[i], c);
    }
  }

  /** After a confirmed expansion every selected target whose value is a well-formed target of its kind
      is allowed: those inherited before stay so, those pending become so; none is of another status. */
  lemma SelectedAreAllowed(db: Db, project: nat, source: nat, ids: seq<nat>, item: Item)
    requires Authorizable(db, project, source, ids) && item in Selected(db, project, source, ids)
    ensures item.status == Inherited || item.status == Pending
    ensures var parsed := ParseTypedTarget(item.kind, item.value);
            && parsed.Some?
            && (item.status == Inherited || NormalizeTargetValue(item.kind, item.value).Some? ==>
                  DecisionOf(Expanded(db, project, source, ids).targets, parsed.value) == Allowed)
  {
    var scope, run := SourceScope(db, source), db.runs[source];
    SelectedMember(db, project, source, ids, item);
    StatusMeans(db, scope, run, item.observation);
    hide Sort, Candidate, Insertions, ParseTypedTarget, NormalizeTargetValue, MatchTarget, DecisionOf;
    if item.status == Pending { ConfirmedTargets(db, project, source, ids, item); }
    ExactExpansion(db, project, source, ids, ParseTypedTarget(item.kind, item.value).value);
  }

  /** The unique key of the scope's rows. */
  predicate KeyUnique(targets: seq<ScopeTarget>) {
    forall i, j | 0 <= i < j < |targets| ::
      (targets[i].kind, targets[i].mode, targets[i].value) != (targets[j].kind, targets[j].mode, targets[j].value)
  }

  lemma {:induction false} InsertionsUnique(items: seq<Item>)
    ensures KeyUnique(Insertions(items)) && |Insertions(items)| <= |items|
    decreases |items|
  {
    if items != [] {
      var n := |items| - 1;
      InsertionsUnique(items[..n]);
      forall t | t in Insertions(items[..n])
        ensures t == ScopeTarget(t.kind, t.value, Include, false, None)
      {
        InsertionMembers(items[..n], t);
      }
    }
  }

  /** A confirmed expansion keeps the scope's key unique and within 1000 rows. */
  lemma ExpansionKeepsKey(db: Db, project: nat, source: nat, ids: seq<nat>)
    requires Authorizable(db, project, source, ids) && KeyUnique(SourceScope(db, source).targets)
    ensures KeyUnique(Expanded(db, project, source, ids).targets)
    ensures |Expanded(db, project, source, ids).targets| <= 1000
  {
    hide Sort, Candidate;
    var before, items := SourceScope(db, source).targets, Selected(db, project, source, ids);
    InsertionsUnique(items);
    hide Insertions;
    forall i, j | 0 <= i < |before| && 0 <= j < |Insertions(items)|
      ensures (before[i].kind, before[i].mode, before[i].value)
              != (Insertions(items)[j].kind, Insertions(items)[j].mode, Insertions(items)[j].value)
    {
      assert !Clashes(before, Insertions(items)[j]);
    }
  }
}

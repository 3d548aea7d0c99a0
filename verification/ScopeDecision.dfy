/** The scope decision for one candidate, and the batch expansion of a scope by derived targets. */
module ScopeDecision {
  import opened Options
  import opened Targets
  import opened UrlRules

  datatype Mode = Include | Exclude

  datatype ScopeTarget = ScopeTarget(kind: Kind, value: Text, mode: Mode, subdomains: bool, rule: Option<Rule>)

  datatype Decision = Allowed | Excluded | Restricted | NoMatch

  // ---------------------------------------------------------------- matching

  /** matchTarget; `subdomains` is the coverage mode, meaningful for domains only. */
  function MatchTarget(t: ScopeTarget, c: Parsed): bool {
    if t.kind == Url && t.rule.Some? then RuleMatches(t.value, t.rule.value, c)
    else
      match t.kind
      case Company => t.value.CompanyText? && c.company == Some(t.value.name)
      case Domain =>
        var root := NormalizeDomain(t.value);
        root.Some? && c.domain != [] && (c.domain == root.value || (t.subdomains && Under(c.domain, root.value)))
      case Ip => t.value.HostText? && Ipv4(t.value.host) && c.ip == Some(t.value.host)
      case Cidr =>
        && t.value.CidrText? && c.ip.Some? && Ipv4(c.ip.value)
        && t.value.prefix.low <= Address(c.ip.value) <= t.value.prefix.high
      case Url => ParseUrl(t.value).Some? && c.value == ParseUrl(t.value).value.value
  }

  /** An explicit site rule for the candidate's host family. */
  predicate Specializes(t: ScopeTarget, c: Parsed) {
    && t.mode == Include && t.rule.Some? && c.kind == Url
    && var host := AnchorHost(t.value);
       host != [] && (host == c.domain || Under(c.domain, host))
  }

  ghost predicate ExcludedBy(targets: seq<ScopeTarget>, c: Parsed) {
    exists t :: t in targets && t.mode == Exclude && MatchTarget(t, c)
  }

  ghost predicate Specialized(targets: seq<ScopeTarget>, c: Parsed) {
    exists t :: t in targets && Specializes(t, c)
  }

  ghost predicate Granted(targets: seq<ScopeTarget>, c: Parsed, urlsOnly: bool) {
    exists t :: t in targets && t.mode == Include && (urlsOnly ==> t.kind == Url) && MatchTarget(t, c)
  }

  /** The policy: exclusions first; a site rule for the host family leaves only URL grants. */
  ghost function DecisionOf(targets: seq<ScopeTarget>, c: Parsed): Decision {
    if ExcludedBy(targets, c) then Excluded
    else if Granted(targets, c, Specialized(targets, c)) then Allowed
    else if Specialized(targets, c) then Restricted
    else NoMatch
  }

  /** scopeMatchDecision: one pass for exclusions and the flag, one pass for grants. */
  method ScopeMatchDecision(targets: seq<ScopeTarget>, c: Parsed) returns (r: Decision)
    ensures r == DecisionOf(targets, c)
  {
    hide MatchTarget, Specializes;
    var specialized := false;
    for i := 0 to |targets|
      invariant !ExcludedBy(targets[..i], c)
      invariant specialized <==> Specialized(targets[..i], c)
    {
      var target := targets[i];
      assert target in targets && targets[..i + 1] == targets[..i] + [target];
      if target.mode == Exclude && MatchTarget(target, c) { return Excluded; }
      if Specializes(target, c) { specialized := true; }
    }
    assert targets[..|targets|] == targets;
    for i := 0 to |targets|
      invariant !Granted(targets[..i], c, specialized)
    {
      var target := targets[i];
      assert target in targets && targets[..i + 1] == targets[..i] + [target];
      if target.mode != Include || (specialized && target.kind != Url) { continue; }
      if MatchTarget(target, c) { return Allowed; }
    }
    assert targets[..|targets|] == targets;
    if specialized { return Restricted; }
    return NoMatch;
  }

  // --------------------------------------------------------- laws of scopes

  /** The decision depends only on which targets the scope holds, not on order or repetition. */
  lemma OrderIrrelevant(a: seq<ScopeTarget>, b: seq<ScopeTarget>, c: Parsed)
    requires forall t :: t in a <==> t in b
    ensures DecisionOf(a, c) == DecisionOf(b, c)
  {
    hide MatchTarget, Specializes;
    assert ExcludedBy(a, c) <==> ExcludedBy(b, c);
    assert Specialized(a, c) <==> Specialized(b, c);
    forall urlsOnly: bool ensures Granted(a, c, urlsOnly) <==> Granted(b, c, urlsOnly) {}
  }

  /** Adding an exclusion turns exactly the candidates it matches into excluded ones. */
  lemma AddingExclusion(targets: seq<ScopeTarget>, t: ScopeTarget, c: Parsed)
    requires t.mode == Exclude
    ensures DecisionOf(targets + [t], c) == if MatchTarget(t, c) then Excluded else DecisionOf(targets, c)
  {
    hide MatchTarget, Specializes;
    var all := targets + [t];
    assert t in all && forall s | s in targets :: s in all;
    ExclusionsDoNotSpecialize(t, c);
  }

  lemma ExclusionsDoNotSpecialize(t: ScopeTarget, c: Parsed)
    requires t.mode == Exclude || t.rule == None
    ensures !Specializes(t, c)
  {}

  /** Adding includes without a URL rule never revokes, and grants exactly the candidates they
      match that were not excluded (under a site rule, only through a URL target). */
  lemma AddingPlainIncludes(targets: seq<ScopeTarget>, added: seq<ScopeTarget>, c: Parsed)
    requires forall t | t in added :: t.mode == Include && t.rule == None
    ensures DecisionOf(targets + added, c) ==
              if DecisionOf(targets, c) != Excluded && Granted(added, c, Specialized(targets, c))
              then Allowed else DecisionOf(targets, c)
  {
    forall t | t in added ensures !Specializes(t, c) { ExclusionsDoNotSpecialize(t, c); }
    hide MatchTarget, Specializes;
    var all := targets + added;
    assert forall s | s in targets || s in added :: s in all;
    assert Specialized(all, c) <==> Specialized(targets, c);
    assert ExcludedBy(all, c) <==> ExcludedBy(targets, c);
    forall urlsOnly: bool
      ensures Granted(all, c, urlsOnly) <==> Granted(targets, c, urlsOnly) || Granted(added, c, urlsOnly) {}
  }

  /** Adding a site rule revokes exactly the candidates of its host family that no URL target
      grants; that is the one way an include can revoke. */
  lemma AddingRule(targets: seq<ScopeTarget>, t: ScopeTarget, c: Parsed)
    requires t.mode == Include && t.rule.Some? && t.kind == Url
    ensures DecisionOf(targets, c) == Allowed && DecisionOf(targets + [t], c) != Allowed
            <==> DecisionOf(targets, c) == Allowed && Specializes(t, c) && !Granted(targets, c, true)
                 && !MatchTarget(t, c)
    ensures DecisionOf(targets, c) == Allowed ==> DecisionOf(targets + [t], c) in {Allowed, Restricted}
    ensures DecisionOf(targets, c) == Excluded <==> DecisionOf(targets + [t], c) == Excluded
  {
    hide MatchTarget, Specializes;
    var all := targets + [t];
    assert t in all && forall s | s in targets :: s in all;
    assert Specialized(all, c) <==> Specialized(targets, c) || Specializes(t, c);
    assert ExcludedBy(all, c) <==> ExcludedBy(targets, c);
    forall urlsOnly: bool
      ensures Granted(all, c, urlsOnly) <==> Granted(targets, c, urlsOnly) || MatchTarget(t, c) {}
  }

  // ------------------------------------------------------- the timed decision

  datatype Scope = Scope(id: nat, project: nat, owner: nat, active: bool, from: nat, until: nat,
                         targets: seq<ScopeTarget>)

  datatype Reason = Ok | ScopeNotFound | TargetInvalid | ScopeInactive | NotStarted | Expired | Denied(decision: Decision)

  predicate InForce(scope: Scope, now: nat) {
    scope.active && scope.from <= now <= scope.until
  }

  /** What dispatch asks: the target parses, the scope is in force, and its policy allows it. */
  ghost predicate AllowedNow(scope: Scope, now: nat, kind: Kind, t: Text) {
    && ParseTypedTarget(kind, t).Some? && InForce(scope, now)
    && DecisionOf(scope.targets, ParseTypedTarget(kind, t).value) == Allowed
  }

  /** IsTypedTargetAllowed: parse, scope, window, policy, in that order. */
  method IsTypedTargetAllowed(scope: Option<Scope>, now: nat, kind: Kind, t: Text) returns (allowed: bool, reason: Reason)
    ensures allowed <==> scope.Some? && AllowedNow(scope.value, now, kind, t)
    ensures allowed <==> reason == Ok
    ensures reason == TargetInvalid <==> ParseTypedTarget(kind, t) == None
    ensures ParseTypedTarget(kind, t).Some? ==>
      && (reason == ScopeNotFound <==> scope == None)
      && (scope.Some? ==>
            && (reason == ScopeInactive <==> !scope.value.active)
            && (reason == NotStarted <==> scope.value.active && now < scope.value.from)
            && (reason == Expired <==> scope.value.active && scope.value.from <= now && scope.value.until < now)
            && (InForce(scope.value, now) && !allowed ==>
                  reason == Denied(DecisionOf(scope.value.targets, ParseTypedTarget(kind, t).value))))
  {
    var parsed := ParseTypedTarget(kind, t);
    if parsed == None { return false, TargetInvalid; }
    if scope == None { return false, ScopeNotFound; }
    if !scope.value.active { return false, ScopeInactive; }
    if now < scope.value.from { return false, NotStarted; }
    if scope.value.until < now { return false, Expired; }
    var decision := ScopeMatchDecision(scope.value.targets, parsed.value);
    return decision == Allowed, if decision == Allowed then Ok else Denied(decision);
  }
}

/** Which endpoints a scope and the project's assets resolve to. */
module ResolvedEndpoints {
  import opened Options
  import opened Targets
  import opened UrlRules
  import opened ScopeDecision
  import opened Coverage
  import opened Resolution

  /** Everything resolveWebBlueprintTargets passes to add. */
  function AllOffers(targets: seq<ScopeTarget>, table: seq<Asset>): seq<Text> {
    ScopeOffers(targets) + if Dynamic(targets) then TableOffers(targets, table) else []
  }

  // ------------------------------------------------------------ what is offered

  /** One of the two default endpoints of a host. */
  predicate DefaultUrl(t: Text, h: Host) {
    || t == UrlText(Http, h, Some(PortText(80, 0)), false)
    || t == UrlText(Https, h, Some(PortText(443, 0)), false)
  }

  /** The row is an include that offers the URL: the default endpoints of a domain, a plain URL
      itself, the seeds of a site rule. */
  predicate RowOffers(x: ScopeTarget, t: Text) {
    && x.mode == Include
    && ((x.kind == Domain && x.value.HostText? && DefaultUrl(t, x.value.host))
        || (x.kind == Url && x.rule == None && t == x.value)
        || (x.kind == Url && x.rule.Some? && t in Seeds(x.value, x.rule)))
  }

  /** The DNS name an asset is evidence of. */
  function EvidenceHost(a: Asset): Option<Host> {
    if a.web then
      if a.value.UrlText? && a.value.scheme != OtherScheme && ValidDomain(a.value.site) then Some(a.value.site) else None
    else if a.value.HostText? && ValidDomain(a.value.host) then Some(a.value.host) else None
  }

  /** The row is a subdomain rule for the host's family, and the URL one of its seeds on that host. */
  ghost predicate RuleOffersOn(x: ScopeTarget, h: Host, t: Text) {
    && x.mode == Include && x.kind == Url && x.rule.Some? && x.rule.value.subdomains
    && x.value.UrlText? && x.value.site != [] && Family(x.value.site, h)
    && t in Seeds(UrlText(Https, h, None, false), Some(x.rule.value.(root := true)))
  }

  /** The asset offers the URL: its own, or on the host it is evidence of a default endpoint or a
      seed of a subdomain rule. */
  ghost predicate AssetOffersText(targets: seq<ScopeTarget>, a: Asset, t: Text) {
    || (a.web && a.value.UrlText? && a.value.scheme != OtherScheme && t == a.value)
    || (EvidenceHost(a).Some?
        && (DefaultUrl(t, EvidenceHost(a).value) || exists x | x in targets :: RuleOffersOn(x, EvidenceHost(a).value, t)))
  }

  /** Some include covers hosts it does not name. */
  predicate NeedsEvidence(targets: seq<ScopeTarget>) {
    exists x | x in targets ::
      x.mode == Include && (x.kind == Domain || (x.kind == Url && x.rule.Some? && x.rule.value.subdomains))
  }

  ghost predicate Offered(targets: seq<ScopeTarget>, table: seq<Asset>, t: Text) {
    || (exists x | x in targets :: RowOffers(x, t))
    || (NeedsEvidence(targets) && exists a | a in table :: AssetOffersText(targets, a, t))
  }

  lemma {:induction false} ScopeOffersMembers(targets: seq<ScopeTarget>, t: Text)
    ensures t in ScopeOffers(targets) <==> exists x | x in targets :: RowOffers(x, t)
    decreases |targets|
  {
    hide TargetOffers, RowOffers;
    if targets != [] {
      var n := |targets| - 1;
      ScopeOffersMembers(targets[..n], t);
      assert targets == targets[..n] + [targets[n]];
      RowOffersMember(targets[n], t);
    }
  }

  lemma RowOffersMember(x: ScopeTarget, t: Text)
    ensures t in TargetOffers(x) <==> RowOffers(x, t)
  {
    hide Normalized, SeedsOver;
    if x.rule == None { assert Seeds(x.value, x.rule) == [x.value]; }
  }

  lemma RuleOffersMember(x: ScopeTarget, h: Host, t: Text)
    ensures RuleOffersOn(x, h, t) <==>
              Covers(x, h) && t in Seeds(UrlText(Https, h, None, false), Some(x.rule.value.(root := true)))
  {
    hide Seeds, Below, Under;
    if x.value.UrlText? { BelowIsUnder(h, x.value.site); }
  }

  lemma {:induction false} RuleOffersMembers(targets: seq<ScopeTarget>, h: Host, t: Text)
    ensures t in RuleOffers(targets, h) <==> exists x | x in targets :: RuleOffersOn(x, h, t)
    decreases |targets|
  {
    hide Seeds, Covers, RuleOffersOn;
    if targets != [] {
      var n := |targets| - 1;
      RuleOffersMembers(targets[..n], h, t);
      assert targets == targets[..n] + [targets[n]];
      RuleOffersMember(targets[n], h, t);
    }
  }

  lemma AssetOffersMembers(targets: seq<ScopeTarget>, a: Asset, t: Text)
    ensures t in AssetOffers(targets, a) <==> AssetOffersText(targets, a, t)
  {
    if NormalizeDomain(AssetHost(a)).Some? { RuleOffersMembers(targets, AssetHost(a).host, t); }
    hide ValidDomain, RuleOffers, RuleOffersOn;
  }

  lemma {:induction false} TableOffersMembers(targets: seq<ScopeTarget>, table: seq<Asset>, t: Text)
    ensures t in TableOffers(targets, table) <==> exists a | a in table :: AssetOffersText(targets, a, t)
    decreases |table|
  {
    hide AssetOffers, AssetOffersText;
    if table != [] {
      var n := |table| - 1;
      TableOffersMembers(targets, table[..n], t);
      assert table == table[..n] + [table[n]];
      AssetOffersMembers(targets, table[n], t);
    }
  }

  lemma OffersMembers(targets: seq<ScopeTarget>, table: seq<Asset>, t: Text)
    ensures t in AllOffers(targets, table) <==> Offered(targets, table, t)
  {
    ScopeOffersMembers(targets, t);
    TableOffersMembers(targets, table, t);
    hide AssetOffersText, RowOffers, ScopeOffers, TableOffers;
    assert Dynamic(targets) <==> NeedsEvidence(targets);
  }

  // ------------------------------------------------------------- main results

  /** An endpoint is resolved iff some URL for it is offered and allowed. */
  lemma ResolvedIff(targets: seq<ScopeTarget>, table: seq<Asset>, e: Endpoint)
    ensures Denotes(targets, Kept(targets, AllOffers(targets, table)), e)
            <==> exists t :: Offered(targets, table, t) && AtOrigin(targets, t, e)
  {
    hide AtOrigin, Offered, Kept;
    var offers := AllOffers(targets, table);
    ResolutionIsExact(targets, offers);
    if Denotes(targets, offers, e) {
      var i :| 0 <= i < |offers| && AtOrigin(targets, offers[i], e);
      OffersMembers(targets, table, offers[i]);
    }
    forall t | Offered(targets, table, t) && AtOrigin(targets, t, e) ensures Denotes(targets, offers, e) {
      OffersMembers(targets, table, t);
      var i :| 0 <= i < |offers| && offers[i] == t;
    }
  }

  /** The host is named by a domain include or, where evidence is needed, by an asset. */
  ghost predicate Known(targets: seq<ScopeTarget>, table: seq<Asset>, h: Host) {
    || (exists x | x in targets :: x.mode == Include && x.kind == Domain && x.value == HostText(h))
    || (NeedsEvidence(targets) && exists a | a in table :: EvidenceHost(a) == Some(h))
  }

  /** Both default endpoints of every known host are resolved if the scope allows them as written. */
  lemma DefaultEndpointsResolved(targets: seq<ScopeTarget>, table: seq<Asset>, h: Host)
    requires Known(targets, table, h) && ValidDomain(h)
    ensures var resolved := Kept(targets, AllOffers(targets, table));
            && (Eligible(targets, UrlText(Http, h, Some(PortText(80, 0)), false)) ==>
                  Denotes(targets, resolved, Endpoint(Http, h, 80)))
            && (Eligible(targets, UrlText(Https, h, Some(PortText(443, 0)), false)) ==>
                  Denotes(targets, resolved, Endpoint(Https, h, 443)))
  {
    DefaultResolved(targets, table, h, Http, 80);
    DefaultResolved(targets, table, h, Https, 443);
  }

  lemma DefaultResolved(targets: seq<ScopeTarget>, table: seq<Asset>, h: Host, scheme: Scheme, port: nat)
    requires Known(targets, table, h) && ValidDomain(h)
    requires (scheme == Http && port == 80) || (scheme == Https && port == 443)
    ensures Eligible(targets, UrlText(scheme, h, Some(PortText(port, 0)), false)) ==>
              Denotes(targets, Kept(targets, AllOffers(targets, table)), Endpoint(scheme, h, port))
  {
    hide Offered, Known, Denotes, AllOffers, DecisionOf, Kept, Eligible, AtOrigin;
    var t := UrlText(scheme, h, Some(PortText(port, 0)), false);
    KnownIsOffered(targets, table, h, t);
    ResolvedIff(targets, table, Endpoint(scheme, h, port));
    if Eligible(targets, t) { WrittenOrigin(targets, scheme, h, port); }
  }

  lemma WrittenOrigin(targets: seq<ScopeTarget>, scheme: Scheme, h: Host, port: nat)
    requires Eligible(targets, UrlText(scheme, h, Some(PortText(port, 0)), false))
    ensures AtOrigin(targets, UrlText(scheme, h, Some(PortText(port, 0)), false), Endpoint(scheme, h, port))
  {
    hide DecisionOf, ValidDomain, DangerousName, DangerousIp;
  }

  lemma KnownIsOffered(targets: seq<ScopeTarget>, table: seq<Asset>, h: Host, t: Text)
    requires Known(targets, table, h) && DefaultUrl(t, h)
    ensures Offered(targets, table, t)
  {
    hide Seeds, ValidDomain, RuleOffersOn;
    if x :| x in targets && x.mode == Include && x.kind == Domain && x.value == HostText(h) {
      assert RowOffers(x, t);
    } else {
      var a :| a in table && EvidenceHost(a) == Some(h);
      assert AssetOffersText(targets, a, t);
    }
  }

  /** On a host below a stored subdomain rule, the seeds are the URLs of the rule's protocols on its
      ports, written out, or on the protocol's default port. */
  lemma CoveredSeeds(value: Text, rule: Rule, h: Host, t: Text)
    requires Stored(value, rule) && rule.subdomains && ValidDomain(h)
    ensures t in Seeds(UrlText(Https, h, None, false), Some(rule.(root := true))) <==>
              t.UrlText? && t.port.Some? && t == UrlText(t.scheme, h, Some(PortText(t.port.value.number, 0)), false)
              && Speaks(rule.protocol, t.scheme)
              && t.port.value.number != 0 && Listens(rule.ports, t.scheme, t.port.value.number)
  {
    hide Normalized, Canonical, ValidDomain, DangerousIp, SeedsOver, Stored, Seeds;
    var effective := CoveredRule(value, rule, h);
    SeedsOverMembers(h, effective, Protocols(effective), t);
    PortsSame(effective.ports, rule.ports);
    if t.UrlText? { ProtocolsSpeak(effective, t.scheme); }
  }

  lemma ProtocolsSpeak(rule: Rule, scheme: Scheme)
    ensures scheme in Protocols(rule) <==> Speaks(rule.protocol, scheme)
  {}

  lemma PortsSame(a: seq<nat>, b: seq<nat>)
    requires forall x :: x in a <==> x in b
    ensures a == [] <==> b == []
  {
    if a != [] { assert a[0] in b; }
    if b != [] { assert b[0] in a; }
  }

  /** The rule that seeds a covered host: the stored one with the root included. */
  lemma CoveredRule(value: Text, rule: Rule, h: Host) returns (effective: Rule)
    requires Stored(value, rule) && rule.subdomains && ValidDomain(h)
    ensures effective == rule.(root := true, ports := effective.ports)
    ensures (forall x :: x in effective.ports <==> x in rule.ports) && 0 !in rule.ports
    ensures Seeds(UrlText(Https, h, None, false), Some(rule.(root := true)))
            == SeedsOver(h, effective, Protocols(effective))
  {
    var whole, raw := rule.(root := true), UrlText(Https, h, None, false);
    assert !Wildcard(h);
    hide Normalized, Canonical, DangerousIp, SeedsOver, Stored, ValidDomain;
    StoredShape(value, rule);
    RuleAccepted(raw, h, whole);
    effective := Normalized(raw, Some(whole)).value.rule.value;
  }
}

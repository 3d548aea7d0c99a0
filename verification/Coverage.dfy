/** What the rows of a scope reach, stated on decisions and in terms of labels, addresses and ports. */
module Coverage {
  import opened Options
  import opened Targets
  import opened UrlRules
  import opened ScopeDecision

  // --------------------------------------------------------------- plain rows

  /** `h` is `root` with at least one more label in front. */
  ghost predicate Below(h: Host, root: Host) {
    exists labels: Host :: labels != [] && h == labels + root
  }

  lemma BelowIsUnder(h: Host, root: Host)
    ensures Below(h, root) <==> Under(h, root)
  {
    if Under(h, root) {
      var labels := h[..|h| - |root|];
      assert labels != [] && h == labels + root;
    }
    if Below(h, root) {
      var labels: Host :| labels != [] && h == labels + root;
      assert h[|labels|..] == root;
    }
  }

  /** What a row without a rule reaches: a domain row its own host, and with subdomains every host
      below it; an address row its address; a network row every address in its range; a company row
      the company of that name; a URL row the URLs of that scheme, site and written port. */
  ghost predicate Reaches(t: ScopeTarget, c: Parsed) {
    match (t.kind, t.value)
    case (Domain, HostText(root)) =>
      ValidDomain(root) && (c.domain == root || (t.subdomains && Below(c.domain, root)))
    case (Ip, HostText(h)) => Ipv4(h) && c.ip == Some(h)
    case (Cidr, CidrText(prefix, _)) =>
      c.ip.Some? && Ipv4(c.ip.value) && prefix.low <= Address(c.ip.value) <= prefix.high
    case (Company, CompanyText(name)) => c.company == Some(name)
    case (Url, UrlText(scheme, site, port, _)) =>
      ParseUrl(t.value).Some? && c.value == UrlText(scheme, site, port, false)
    case _ => false
  }

  lemma MatchIsReach(t: ScopeTarget, c: Parsed)
    requires t.rule == None
    ensures MatchTarget(t, c) <==> Reaches(t, c)
  {
    if t.kind == Domain && t.value.HostText? { BelowIsUnder(c.domain, t.value.host); }
  }

  /** An added include without a rule turns exactly the candidates it reaches into allowed ones,
      except excluded ones and, for rows that are not URLs, those held back by a site rule. */
  lemma IncludeReaches(targets: seq<ScopeTarget>, t: ScopeTarget, c: Parsed)
    requires t.mode == Include && t.rule == None
    ensures DecisionOf(targets + [t], c) ==
              if DecisionOf(targets, c) != Excluded && Reaches(t, c) && (t.kind == Url || !Specialized(targets, c))
              then Allowed else DecisionOf(targets, c)
  {
    MatchIsReach(t, c);
    AddingPlainIncludes(targets, [t], c);
    hide MatchTarget, Reaches, DecisionOf, Specialized;
    assert t in [t] && forall s | s in [t] :: s == t;
  }

  /** An added exclusion without a rule turns exactly the candidates it reaches into excluded ones. */
  lemma ExcludeReaches(targets: seq<ScopeTarget>, t: ScopeTarget, c: Parsed)
    requires t.mode == Exclude && t.rule == None
    ensures DecisionOf(targets + [t], c) == if Reaches(t, c) then Excluded else DecisionOf(targets, c)
  {
    MatchIsReach(t, c);
    AddingExclusion(targets, t, c);
  }

  /** A scope of one domain row: an exact one allows a host, as a name or as the site of a URL, iff it
      is that host; with subdomains also every host below it; addresses never. */
  lemma OneDomain(root: Host, subdomains: bool, h: Host, scheme: Scheme, port: Option<PortText>, extra: bool)
    requires ValidDomain(root)
    ensures var targets := [ScopeTarget(Domain, HostText(root), Include, subdomains, None)];
            var covered := h == root || (subdomains && Below(h, root));
            && (ParseTarget(HostText(h)).Some? ==>
                  DecisionOf(targets, ParseTarget(HostText(h)).value) == if covered then Allowed else NoMatch)
            && (ParseTarget(UrlText(scheme, h, port, extra)).Some? ==>
                  DecisionOf(targets, ParseTarget(UrlText(scheme, h, port, extra)).value)
                  == if covered then Allowed else NoMatch)
            && (covered && ValidDomain(h) ==> ParseTarget(HostText(h)).Some?)
            && (Ipv4(h) ==> !covered)
  {
    AddressNotBelow(h, root);
    hide DecisionOf, Below, DangerousIp, DangerousName;
    if ParseTarget(HostText(h)).Some? { OneDomainDecides(root, subdomains, ParseTarget(HostText(h)).value); }
    if ParseTarget(UrlText(scheme, h, port, extra)).Some? {
      OneDomainDecides(root, subdomains, ParseTarget(UrlText(scheme, h, port, extra)).value);
    }
    NameOrAddress(h);
  }

  lemma OneDomainDecides(root: Host, subdomains: bool, c: Parsed)
    requires ValidDomain(root)
    ensures DecisionOf([ScopeTarget(Domain, HostText(root), Include, subdomains, None)], c)
            == if c.domain == root || (subdomains && Below(c.domain, root)) then Allowed else NoMatch
  {
    var t := ScopeTarget(Domain, HostText(root), Include, subdomains, None);
    IncludeReaches([], t, c);
    hide ValidDomain, Below, MatchTarget;
    assert [] + [t] == [t];
  }

  lemma AddressNotBelow(h: Host, root: Host)
    requires ValidDomain(root)
    ensures Ipv4(h) ==> h != root && !Below(h, root)
    ensures !Below([], root)
  {
    BelowIsUnder(h, root);
    BelowIsUnder([], root);
  }

  // ---------------------------------------------------------------- site rules

  /** The host is the rule's own, or below it. */
  ghost predicate Family(site: Host, h: Host) {
    h == site || Below(h, site)
  }

  /** What a stored rule admits: its own host if it includes the root, hosts below it if it includes
      subdomains; the protocols it names; the ports it lists, or the default port of the protocol. */
  ghost predicate Admits(site: Host, rule: Rule, c: Parsed) {
    && c.kind == Url && c.scheme.Some?
    && ((rule.root && c.domain == site) || (rule.subdomains && Below(c.domain, site)))
    && Speaks(rule.protocol, c.scheme.value)
    && Listens(rule.ports, c.scheme.value, c.port)
  }

  predicate Speaks(protocol: Protocol, scheme: Scheme) {
    || (scheme == Http && (protocol == OnlyHttp || protocol == Both))
    || (scheme == Https && (protocol == OnlyHttps || protocol == Both))
  }

  /** `port` is 0 where none is written. */
  predicate Listens(ports: seq<nat>, scheme: Scheme, port: nat) {
    var default := if scheme == Https then 443 else 80;
    var written := if port != 0 then port else default;
    if ports == [] then written == default else written in ports
  }

  lemma MatchIsAdmission(value: Text, rule: Rule, c: Parsed)
    requires Stored(value, rule)
    ensures value.UrlText? && value.site != []
    ensures RuleMatches(value, rule, c) <==> Admits(value.site, rule, c)
  {
    hide Admits, RuleMatches, Normalized, Stored, Sensible;
    StoredShape(value, rule);
    StoredIsEffective(value, rule);
    EffectiveAdmits(value, rule, c);
  }

  lemma EffectiveAdmits(value: Text, rule: Rule, c: Parsed)
    requires value.UrlText? && value.site != [] && rule.protocol != BadProtocol
    requires Normalized(value, Some(rule)).Some? && Normalized(value, Some(rule)).value.rule == Some(rule)
    ensures RuleMatches(value, rule, c) <==> Admits(value.site, rule, c)
  {
    BelowIsUnder(c.domain, value.site);
    HostBelowItself(value.site);
    if c.scheme.Some? { PortsAndSchemes(rule, c); }
    hide Normalized, Under, Below, Speaks, Listens, SchemeAllowed, PortAllowed, EndpointOf;
  }

  lemma PortsAndSchemes(rule: Rule, c: Parsed)
    requires c.scheme.Some?
    ensures SchemeAllowed(rule, c.scheme.value) <==> Speaks(rule.protocol, c.scheme.value)
    ensures PortAllowed(rule, c.scheme.value, EndpointOf(c).port) <==> Listens(rule.ports, c.scheme.value, c.port)
  {}

  lemma StoredIsEffective(value: Text, rule: Rule)
    requires Stored(value, rule)
    ensures Normalized(value, Some(rule)).Some? && Normalized(value, Some(rule)).value.rule == Some(rule)
    ensures rule.protocol != BadProtocol
  {
    StoredShape(value, rule);
    hide Normalized;
  }

  lemma HostBelowItself(h: Host)
    ensures !Below(h, h) && !Under(h, h)
  {
    BelowIsUnder(h, h);
  }

  /** An added site rule decides its host family: what it admits is allowed, what it does not admit
      is restricted unless another URL row grants it; everything else, and exclusions, stay. */
  lemma RuleDecides(targets: seq<ScopeTarget>, value: Text, rule: Rule, subdomains: bool, c: Parsed)
    requires Stored(value, rule) && value.UrlText? && c.kind == Url
    ensures DecisionOf(targets + [ScopeTarget(Url, value, Include, subdomains, Some(rule))], c) ==
              if DecisionOf(targets, c) == Excluded then Excluded
              else if Admits(value.site, rule, c) then Allowed
              else if Family(value.site, c.domain) && !Granted(targets, c, true) then Restricted
              else DecisionOf(targets, c)
  {
    var t := ScopeTarget(Url, value, Include, subdomains, Some(rule));
    MatchIsAdmission(value, rule, c);
    BelowIsUnder(c.domain, value.site);
    assert MatchTarget(t, c) <==> Admits(value.site, rule, c);
    assert Specializes(t, c) <==> Family(value.site, c.domain);
    hide MatchTarget, Specializes, RuleMatches;
    var all := targets + [t];
    assert t in all && forall s | s in targets :: s in all;
    assert Specialized(all, c) <==> Specialized(targets, c) || Specializes(t, c);
    assert ExcludedBy(all, c) <==> ExcludedBy(targets, c);
    forall urlsOnly: bool
      ensures Granted(all, c, urlsOnly) <==> Granted(targets, c, urlsOnly) || MatchTarget(t, c) {}
  }

  /** An added rule that excludes turns exactly what it admits into excluded candidates. */
  lemma RuleExcludes(targets: seq<ScopeTarget>, value: Text, rule: Rule, subdomains: bool, c: Parsed)
    requires Stored(value, rule) && value.UrlText?
    ensures DecisionOf(targets + [ScopeTarget(Url, value, Exclude, subdomains, Some(rule))], c)
            == if Admits(value.site, rule, c) then Excluded else DecisionOf(targets, c)
  {
    var t := ScopeTarget(Url, value, Exclude, subdomains, Some(rule));
    MatchIsAdmission(value, rule, c);
    AddingExclusion(targets, t, c);
  }

  // ------------------------------------------------- reading an authorization

  /** A wildcard URL without a rule is stored for every plain scheme, port and DNS name, as a rule for
      the hosts below the name, under that scheme, on that port if one is written. */
  lemma WildcardStored(scheme: Scheme, h: Host, port: Option<PortText>)
    ensures var site := Normalized(UrlText(scheme, [Star] + h, port, false), None);
            && (site.Some? <==>
                  scheme != OtherScheme && ValidDomain(h) && (port.Some? ==> 1 <= port.value.number <= 65535))
            && (site.Some? ==>
                  && site.value.value == UrlText(scheme, h, None, false)
                  && site.value.rule == Some(Rule(if scheme == Http then OnlyHttp else OnlyHttps, true, false,
                                                  if port.Some? then [port.value.number] else []))
                  && Stored(site.value.value, site.value.rule.value))
  {
    var raw := UrlText(scheme, [Star] + h, port, false);
    assert ([Star] + h)[1..] == h;
    NameOrAddress(h);
    OnePort(if port.Some? then port.value.number else 0);
    hide DangerousIp, DangerousName, Sort, Canonical, ValidDomain;
    if Normalized(raw, None).Some? { NormalizationIdempotent(raw, None); }
  }

  lemma OnePort(n: nat)
    ensures Canonical([n]) == [n] && Canonical([]) == []
  {
    CanonicalMeans([n]);
    CanonicalMeans([]);
    StrictlySortedUnique(Canonical([n]), [n]);
  }

  /** A wildcard URL with a rule is stored as that rule for its name, with subdomains included whatever
      the rule says of them; its scheme and port are only checked. */
  lemma WildcardWithRule(scheme: Scheme, h: Host, port: Option<PortText>, rule: Rule)
    ensures var site := Normalized(UrlText(scheme, [Star] + h, port, false), Some(rule));
            && (site.Some? <==>
                  && scheme != OtherScheme && ValidDomain(h) && (port.Some? ==> 1 <= port.value.number <= 65535)
                  && rule.protocol != BadProtocol && |rule.ports| <= 20 && 0 !in rule.ports)
            && (site.Some? ==>
                  && site.value.value == UrlText(if rule.protocol == OnlyHttp then Http else Https, h, None, false)
                  && site.value.rule == Some(rule.(subdomains := true, ports := Canonical(rule.ports))))
  {
    assert ([Star] + h)[1..] == h;
    NameOrAddress(h);
    hide DangerousIp, DangerousName, Sort, Canonical, ValidDomain;
  }

  /** Read without a rule, a wildcard URL means the URLs on hosts strictly below its name, under its
      scheme, on its port or, if none is written, on the scheme's default port. */
  lemma WildcardMeans(scheme: Scheme, h: Host, port: Option<PortText>, c: Parsed)
    requires Normalized(UrlText(scheme, [Star] + h, port, false), None).Some?
    ensures var site := Normalized(UrlText(scheme, [Star] + h, port, false), None).value;
            site.rule.Some?
            && (RuleMatches(site.value, site.rule.value, c) <==>
                  && c.kind == Url && c.scheme == Some(scheme) && Below(c.domain, h)
                  && var written := if c.port != 0 then c.port else if scheme == Https then 443 else 80;
                     written == if port.Some? then port.value.number else if scheme == Https then 443 else 80)
  {
    WildcardStored(scheme, h, port);
    var site := Normalized(UrlText(scheme, [Star] + h, port, false), None).value;
    MatchIsAdmission(site.value, site.rule.value, c);
    hide Normalized, Stored, ValidDomain, RuleMatches, Below;
  }

  /** The host on its own, with a port, or as a plain URL. */
  predicate WrittenFor(raw: Text, h: Host) {
    match raw
    case HostText(x) => x == h
    case EndpointText(x, port) => x == h && 1 <= port.number <= 65535
    case UrlText(scheme, x, port, extra) =>
      x == h && !extra && scheme != OtherScheme && (port.Some? ==> 1 <= port.value.number <= 65535)
    case _ => false
  }

  /** A host with a rule is stored iff the rule names a protocol, the root or the subdomains, at most
      20 real ports, and the host is a DNS name or, without subdomains, an address that is not
      reserved; a port or scheme written with the host changes nothing but must be well formed. */
  lemma RuleAccepted(raw: Text, h: Host, rule: Rule)
    requires !Wildcard(h)
    requires WrittenFor(raw, h)
    ensures Normalized(raw, Some(rule)).Some? <==>
              && rule.protocol != BadProtocol && (rule.root || rule.subdomains)
              && |rule.ports| <= 20 && 0 !in rule.ports
              && (ValidDomain(h) || (Ipv4(h) && !DangerousIp(h) && !rule.subdomains))
    ensures var site := Normalized(raw, Some(rule));
            site.Some? ==>
              && site.value.value == UrlText(if rule.protocol == OnlyHttp then Http else Https, h, None, false)
              && site.value.rule.value == rule.(ports := site.value.rule.value.ports)
              && forall x :: x in site.value.rule.value.ports <==> x in rule.ports
  {
    NameOrAddress(h);
    CanonicalMeans(rule.ports);
    hide DangerousIp, DangerousName, Sort, Canonical;
  }

  // ------------------------------------------------------ nothing reserved

  /** The blocks of IPv4 that no scope may name. */
  predicate ReservedOctets(a: nat, b: nat, c: nat) {
    || a == 0 || a == 10 || a == 127 || a >= 224
    || (a == 100 && 64 <= b < 128) || (a == 169 && b == 254) || (a == 172 && 16 <= b < 32)
    || (a == 192 && b == 168) || (a == 192 && b == 0 && (c == 0 || c == 2))
    || (a == 198 && (b == 18 || b == 19)) || (a == 198 && b == 51 && c == 100) || (a == 203 && b == 0 && c == 113)
  }

  predicate ReservedNumber(x: nat) {
    || 0x00000000 <= x <= 0x00FFFFFF || 0x0A000000 <= x <= 0x0AFFFFFF || 0x64400000 <= x <= 0x647FFFFF
    || 0x7F000000 <= x <= 0x7FFFFFFF || 0xA9FE0000 <= x <= 0xA9FEFFFF || 0xAC100000 <= x <= 0xAC1FFFFF
    || 0xC0000000 <= x <= 0xC00000FF || 0xC0A80000 <= x <= 0xC0A8FFFF || 0xC6120000 <= x <= 0xC613FFFF
    || 0xC0000200 <= x <= 0xC00002FF || 0xC6336400 <= x <= 0xC63364FF || 0xCB007100 <= x <= 0xCB0071FF
    || 0xE0000000 <= x <= 0xEFFFFFFF || 0xF0000000 <= x <= 0xFFFFFFFF
  }

  lemma ReservedNumbers(x: nat)
    ensures ReservedNumber(x) <==> exists i | 0 <= i < |RESERVED| :: RESERVED[i].0 <= x <= RESERVED[i].1
  {
    assert forall i | 0 <= i < |RESERVED| :: RESERVED[i].0 <= x <= RESERVED[i].1 ==> ReservedNumber(x);
    if ReservedNumber(x) {
      var i := if x <= 0x00FFFFFF then 0 else if x <= 0x0AFFFFFF then 1 else if x <= 0x647FFFFF then 2
               else if x <= 0x7FFFFFFF then 3 else if x <= 0xA9FEFFFF then 4 else if x <= 0xAC1FFFFF then 5
               else if x <= 0xC00000FF then 6 else if x <= 0xC00002FF then 9 else if x <= 0xC0A8FFFF then 7
               else if x <= 0xC613FFFF then 8 else if x <= 0xC63364FF then 10 else if x <= 0xCB0071FF then 11
               else if x <= 0xEFFFFFFF then 12 else 13;
      assert RESERVED[i].0 <= x <= RESERVED[i].1;
    }
  }

  lemma ReservedBlocks(a: nat, b: nat, c: nat, d: nat)
    requires a < 256 && b < 256 && c < 256 && d < 256
    ensures ReservedNumber(((a * 256 + b) * 256 + c) * 256 + d) <==> ReservedOctets(a, b, c)
  {}

  lemma ReservedMeans(h: Host)
    requires Ipv4(h)
    ensures DangerousIp(h) <==> ReservedOctets(h[0].n, h[1].n, h[2].n)
  {
    ReservedNumbers(Address(h));
    ReservedBlocks(h[0].n, h[1].n, h[2].n, h[3].n);
    hide ReservedNumber, ReservedOctets;
  }

  /** No text parses to a target whose address is reserved or whose name ends in a special-use label;
      an address text parses exactly if its address is not reserved. */
  lemma NothingReservedParses(t: Text, h: Host)
    requires h != []
    ensures ParseTarget(HostText(h)).Some? && Ipv4(h) <==>
              Ipv4(h) && !ReservedOctets(h[0].n, h[1].n, h[2].n)
    ensures ParseTarget(t).Some? && ParseTarget(t).value.kind != Cidr && ParseTarget(t).value.ip == Some(h) ==>
              Ipv4(h) && !ReservedOctets(h[0].n, h[1].n, h[2].n)
    ensures ParseTarget(t).Some? && ParseTarget(t).value.ip == None && ParseTarget(t).value.domain == h ==>
              |h| >= 2 && h[|h|-1].Word?
              && h[|h|-1].text !in {"localhost", "local", "localdomain", "internal", "alt", "invalid", "test", "example"}
              && !(|h| > 2 && h[|h|-1].text == "arpa" && h[|h|-2] == Word("home"))
              && Star !in h && forall b :: Bad(b) !in h
  {
    if Ipv4(h) { ReservedMeans(h); }
    hide DangerousIp, ReservedOctets;
  }

  /** Which URLs are targets, and as what: http or https, a real port if one is written, a DNS name or
      an address that is not reserved; user, path, query and fragment are dropped. */
  lemma UrlParses(scheme: Scheme, site: Host, port: Option<PortText>, extra: bool)
    ensures var parsed := ParseTarget(UrlText(scheme, site, port, extra));
            && (parsed.Some? <==>
                  && scheme != OtherScheme && (port.Some? ==> 1 <= port.value.number <= 65535)
                  && (ValidDomain(site) || (Ipv4(site) && !ReservedOctets(site[0].n, site[1].n, site[2].n))))
            && (parsed.Some? ==>
                  parsed.value == Parsed(Url, UrlText(scheme, site, port, false), Some(scheme), site, None,
                                         if Ipv4(site) then Some(site) else None,
                                         if port.Some? then port.value.number else 0))
  {
    if Ipv4(site) { ReservedMeans(site); }
    NameOrAddress(site);
    hide DangerousIp, ReservedOctets;
  }
}

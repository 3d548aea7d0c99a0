/** Whole-site URL authorizations: normalisation, matching, and the seeds generated from them. */
module UrlRules {
  import opened Options
  import opened Targets

  const MAX_PORTS := 20

  datatype Protocol = OnlyHttp | OnlyHttps | Both | BadProtocol

  datatype Rule = Rule(protocol: Protocol, subdomains: bool, root: bool, ports: seq<nat>)

  /** What normalizeURLAuthorization stores: a value, and a rule unless it is one plain URL. */
  datatype Site = Site(value: Text, rule: Option<Rule>)

  // ------------------------------------------------------------------- ports

  predicate StrictlySorted(s: seq<nat>) {
    forall i, j | 0 <= i < j < |s| :: s[i] < s[j]
  }

  predicate Sorted(s: seq<nat>) {
    forall i, j | 0 <= i < j < |s| :: s[i] <= s[j]
  }

  /** sort.Slice, by insertion. */
  function Sort(s: seq<nat>): (r: seq<nat>)
    ensures Sorted(r) && |r| == |s| && forall x :: x in r <==> x in s
  {
    if s == [] then [] else Insert(Sort(s[..|s|-1]), s[|s|-1])
  }

  function Insert(s: seq<nat>, x: nat): (r: seq<nat>)
    requires Sorted(s)
    ensures Sorted(r) && |r| == |s| + 1 && forall y :: y in r <==> y in s || y == x
  {
    if s == [] || s[|s|-1] <= x then s + [x]
    else
      var rest := Insert(s[..|s|-1], x);
      assert forall i | 0 <= i < |rest| :: rest[i] in rest && rest[i] <= s[|s|-1];
      rest + [s[|s|-1]]
  }

  /** A strictly sorted list is determined by its elements. */
  lemma {:induction false} StrictlySortedUnique(a: seq<nat>, b: seq<nat>)
    requires StrictlySorted(a) && StrictlySorted(b) && forall x :: x in a <==> x in b
    ensures a == b
    decreases |a|
  {
    if a == [] {
      assert forall i | 0 <= i < |b| :: b[i] in b;
    } else {
      assert a[|a|-1] in b && b[|b|-1] in a;
      var x, a', b' := a[|a|-1], a[..|a|-1], b[..|b|-1];
      assert b[|b|-1] == x;
      assert a == a' + [x] && b == b' + [x];
      assert x !in a' && x !in b';
      forall y: nat | y in a' || y in b' ensures y in a' && y in b' {
        assert y in a && y in b;
      }
      StrictlySortedUnique(a', b');
    }
  }

  /** Duplicates of neighbours dropped: what the loop in normalizeURLAuthorization keeps. */
  function Dedup(s: seq<nat>): (r: seq<nat>)
    ensures |r| <= |s|
  {
    if s == [] then []
    else
      var before := Dedup(s[..|s|-1]);
      if before != [] && before[|before|-1] == s[|s|-1] then before else before + [s[|s|-1]]
  }

  lemma {:induction false} DedupElements(s: seq<nat>, x: nat)
    ensures x in Dedup(s) <==> x in s
    ensures s != [] ==> Dedup(s) != [] && Dedup(s)[|Dedup(s)|-1] == s[|s|-1]
    decreases |s|
  {
    if s != [] {
      DedupElements(s[..|s|-1], x);
      assert s == s[..|s|-1] + [s[|s|-1]];
    }
  }

  lemma {:induction false} DedupSorted(s: seq<nat>)
    requires Sorted(s)
    ensures StrictlySorted(Dedup(s))
    decreases |s|
  {
    if |s| > 1 {
      DedupSorted(s[..|s|-1]);
      DedupElements(s[..|s|-1], 0);
    }
  }

  /** Port lists as stored: sorted, without repetition, with the elements given. */
  function Canonical(ports: seq<nat>): seq<nat> {
    Dedup(Sort(ports))
  }

  lemma CanonicalMeans(ports: seq<nat>)
    ensures StrictlySorted(Canonical(ports)) && |Canonical(ports)| <= |ports|
    ensures forall x :: x in Canonical(ports) <==> x in ports
  {
    DedupSorted(Sort(ports));
    forall x: nat ensures x in Canonical(ports) <==> x in ports { DedupElements(Sort(ports), x); }
  }

  lemma CanonicalIdempotent(ports: seq<nat>)
    ensures Canonical(Canonical(ports)) == Canonical(ports)
  {
    CanonicalMeans(ports);
    CanonicalMeans(Canonical(ports));
    StrictlySortedUnique(Canonical(Canonical(ports)), Canonical(ports));
  }

  /** The loop over the sorted ports; a zero port is refused. */
  method DedupPorts(sorted: seq<nat>) returns (r: Option<seq<nat>>)
    ensures r == if 0 in sorted then None else Some(Dedup(sorted))
  {
    var ports: seq<nat> := [];
    for i := 0 to |sorted|
      invariant ports == Dedup(sorted[..i]) && 0 !in sorted[..i]
    {
      var p := sorted[i];
      if p == 0 { return None; }
      assert sorted[..i + 1][..i] == sorted[..i];
      if |ports| == 0 || ports[|ports|-1] != p { ports := ports + [p]; }
    }
    assert sorted[..|sorted|] == sorted;
    return Some(ports);
  }

  // ----------------------------------------------------------- normalisation

  predicate ValidPort(port: Option<PortText>) {
    port.Some? ==> 1 <= port.value.number <= 65535
  }

  predicate Wildcard(h: Host) {
    h != [] && h[0] == Star
  }

  /** The host of a rule: an address that is safe, or a DNS name. */
  predicate RuleHost(h: Host, subdomains: bool) {
    if Ipv4(h) then !subdomains && !DangerousIp(h) else ValidDomain(h)
  }

  predicate Sensible(rule: Rule) {
    && rule.protocol != BadProtocol && (rule.root || rule.subdomains)
    && |rule.ports| <= MAX_PORTS && 0 !in rule.ports
  }

  /** A bare host or endpoint is read as a URL when a rule comes with it. */
  function WithScheme(raw: Text, rule: Rule): Text {
    var scheme := if rule.protocol == OnlyHttp then Http else Https;
    match raw
    case HostText(h) => UrlText(scheme, h, None, false)
    case EndpointText(h, port) => UrlText(scheme, h, Some(port), false)
    case _ => raw
  }

  /** The rule the checks apply to, before its ports are put in order. */
  function EffectiveRule(url: Text, input: Option<Rule>): Rule
    requires url.UrlText?
  {
    var wildcard := Wildcard(url.site);
    if input.Some? then input.value.(subdomains := input.value.subdomains || wildcard)
    else Rule(if url.scheme == Http then OnlyHttp else OnlyHttps, wildcard, !wildcard,
              if url.port.Some? then [url.port.value.number] else [])
  }

  /** normalizeURLAuthorization, as a value. */
  function Normalized(raw: Text, input: Option<Rule>): (r: Option<Site>)
    ensures r.Some? && input.Some? ==> r.value.rule.Some?
  {
    var url := if input.Some? then WithScheme(raw, input.value) else raw;
    if input == None && !(url.UrlText? && Wildcard(url.site)) then
      var value := NormalizeTargetValue(Url, raw);
      if value == None then None else Some(Site(value.value, None))
    else if !url.UrlText? || url.extra || url.scheme == OtherScheme || !ValidPort(url.port) then None
    else
      var rule := EffectiveRule(url, input);
      var host := if Wildcard(url.site) then url.site[1..] else url.site;
      if !Sensible(rule) || !RuleHost(host, rule.subdomains) then None
      else Some(Site(UrlText(if rule.protocol == OnlyHttp then Http else Https, host, None, false),
                     Some(rule.(ports := Canonical(rule.ports)))))
  }

  /** normalizeURLAuthorization: the checks in order, then the ports sorted and deduplicated. */
  method NormalizeUrlAuthorization(raw: Text, input: Option<Rule>) returns (r: Option<Site>)
    ensures r == Normalized(raw, input)
  {
    hide DangerousIp, DangerousName, Sort;
    var url := raw;
    if input.Some? { url := WithScheme(raw, input.value); }
    var wildcard := url.UrlText? && Wildcard(url.site);
    if input == None && !wildcard {
      var value := NormalizeTargetValue(Url, raw);
      if value == None { return None; }
      return Some(Site(value.value, None));
    }
    if !url.UrlText? || url.extra || url.scheme == OtherScheme || !ValidPort(url.port) { return None; }
    var rule := Rule(if url.scheme == Http then OnlyHttp else OnlyHttps, wildcard, !wildcard, []);
    if input.Some? { rule := input.value; }
    if wildcard { rule := rule.(subdomains := true); }
    if rule.protocol == BadProtocol || (!rule.root && !rule.subdomains) { return None; }
    var host := if wildcard then url.site[1..] else url.site;
    if !RuleHost(host, rule.subdomains) { return None; }
    if input == None && url.port.Some? { rule := rule.(ports := [url.port.value.number]); }
    if |rule.ports| > MAX_PORTS { return None; }
    var ports := DedupPorts(Sort(rule.ports));
    if ports == None { return None; }
    return Some(Site(UrlText(if rule.protocol == OnlyHttp then Http else Https, host, None, false),
                     Some(rule.(ports := ports.value))));
  }

  /** Normalising what was normalised changes nothing. */
  lemma NormalizationIdempotent(raw: Text, input: Option<Rule>)
    requires Normalized(raw, input).Some?
    ensures var site := Normalized(raw, input).value; Normalized(site.value, site.rule) == Some(site)
  {
    hide DangerousIp, DangerousName, Sort;
    var site := Normalized(raw, input).value;
    if site.rule == None {
      NormalizedParses(Url, raw);
    } else {
      var rule := EffectiveRule(if input.Some? then WithScheme(raw, input.value) else raw, input);
      CanonicalMeans(rule.ports);
      CanonicalIdempotent(rule.ports);
    }
  }

  // ------------------------------------------------------------ the matcher

  function DefaultPort(scheme: Scheme): nat {
    if scheme == Https then 443 else 80
  }

  /** A whole-site endpoint: what a URL means to scopes and engines. */
  datatype Endpoint = Endpoint(scheme: Scheme, host: Host, port: nat)

  function EndpointOf(c: Parsed): Endpoint
    requires c.scheme.Some?
  {
    Endpoint(c.scheme.value, c.domain, if c.port == 0 then DefaultPort(c.scheme.value) else c.port)
  }

  /** url.Parse(value).Hostname(): only URL texts have one. */
  function AnchorHost(value: Text): Host {
    if value.UrlText? then value.site else []
  }

  predicate PortAllowed(rule: Rule, scheme: Scheme, port: nat) {
    if rule.ports == [] then port == DefaultPort(scheme) else port in rule.ports
  }

  predicate SchemeAllowed(rule: Rule, scheme: Scheme) {
    match rule.protocol
    case Both => scheme != OtherScheme
    case OnlyHttp => scheme == Http
    case OnlyHttps => scheme == Https
    case BadProtocol => false
  }

  /** matchURLAuthorization, check by check. */
  method MatchUrlAuthorization(value: Text, rule: Rule, c: Parsed) returns (r: bool)
    requires c.kind == Url ==> c.scheme == Some(Http) || c.scheme == Some(Https)
    ensures r <==> RuleMatches(value, rule, c)
  {
    hide Normalized;
    if c.kind != Url { return false; }
    var site := NormalizeUrlAuthorization(value, Some(rule));
    if site == None { return false; }
    var effective := site.value.rule.value;
    var host := AnchorHost(value);
    var exact := host == c.domain;
    if exact && !effective.root { return false; }
    if !exact && (!effective.subdomains || host == [] || !Under(c.domain, host)) { return false; }
    if effective.protocol != Both && !SchemeAllowed(effective, c.scheme.value) { return false; }
    var port := c.port;
    if port == 0 { port := if c.scheme == Some(Https) then 443 else 80; }
    if |effective.ports| == 0 {
      return (c.scheme == Some(Https) && port == 443) || (c.scheme == Some(Http) && port == 80);
    }
    r := PortListed(effective.ports, port);
  }

  method PortListed(ports: seq<nat>, port: nat) returns (r: bool)
    ensures r <==> port in ports
  {
    for i := 0 to |ports|
      invariant port !in ports[..i]
    {
      if ports[i] == port { return true; }
    }
    return false;
  }

  /** A rule covers a URL: host, then scheme, then effective port. */
  predicate RuleMatches(value: Text, rule: Rule, c: Parsed) {
    && c.kind == Url && c.scheme.Some? && Normalized(value, Some(rule)).Some?
    && var effective := Normalized(value, Some(rule)).value.rule.value;
       var host := AnchorHost(value);
       && (if host == c.domain then effective.root
           else effective.subdomains && host != [] && Under(c.domain, host))
       && SchemeAllowed(effective, c.scheme.value)
       && PortAllowed(effective, c.scheme.value, EndpointOf(c).port)
  }

  // --------------------------------------------------------------- the seeds

  function PortsFor(rule: Rule, scheme: Scheme): seq<nat> {
    if rule.ports == [] then [DefaultPort(scheme)] else rule.ports
  }

  function SeedsOn(host: Host, scheme: Scheme, ports: seq<nat>): seq<Text> {
    if ports == [] then []
    else SeedsOn(host, scheme, ports[..|ports|-1]) + [UrlText(scheme, host, Some(PortText(ports[|ports|-1], 0)), false)]
  }

  function Protocols(rule: Rule): seq<Scheme> {
    match rule.protocol
    case Both => [Http, Https]
    case OnlyHttp => [Http]
    case OnlyHttps => [Https]
    case BadProtocol => []
  }

  function SeedsOver(host: Host, rule: Rule, schemes: seq<Scheme>): seq<Text> {
    if schemes == [] then []
    else
      var last := schemes[|schemes|-1];
      SeedsOver(host, rule, schemes[..|schemes|-1]) + SeedsOn(host, last, PortsFor(rule, last))
  }

  /** scopeURLSeeds, as a value. */
  function Seeds(value: Text, rule: Option<Rule>): seq<Text> {
    if rule == None then [value]
    else if Normalized(value, rule) == None || !Normalized(value, rule).value.rule.value.root || !value.UrlText? then []
    else
      var effective := Normalized(value, rule).value.rule.value;
      SeedsOver(value.site, effective, Protocols(effective))
  }

  /** scopeURLSeeds: every protocol with every port. */
  method ScopeUrlSeeds(value: Text, rule: Option<Rule>) returns (values: seq<Text>)
    ensures values == Seeds(value, rule)
  {
    hide Normalized;
    if rule == None { return [value]; }
    var site := NormalizeUrlAuthorization(value, rule);
    if site == None || !site.value.rule.value.root { return []; }
    if !value.UrlText? { return []; }
    var effective := site.value.rule.value;
    var protocols := Protocols(effective);
    values := [];
    for i := 0 to |protocols|
      invariant values == SeedsOver(value.site, effective, protocols[..i])
    {
      var seeds := SeedsForProtocol(value.site, protocols[i], PortsFor(effective, protocols[i]));
      assert protocols[..i + 1][..i] == protocols[..i];
      values := values + seeds;
    }
    assert protocols[..|protocols|] == protocols;
  }

  /** The loop over the ports of one protocol. */
  method SeedsForProtocol(host: Host, scheme: Scheme, ports: seq<nat>) returns (values: seq<Text>)
    ensures values == SeedsOn(host, scheme, ports)
  {
    values := [];
    for j := 0 to |ports|
      invariant values == SeedsOn(host, scheme, ports[..j])
    {
      assert ports[..j + 1][..j] == ports[..j];
      values := values + [UrlText(scheme, host, Some(PortText(ports[j], 0)), false)];
    }
    assert ports[..|ports|] == ports;
  }

  // -------------------------------------------- matcher and generator agree

  /** A stored authorization: what normalisation returns for it is itself. */
  predicate Stored(value: Text, rule: Rule) {
    Normalized(value, Some(rule)) == Some(Site(value, Some(rule)))
  }

  /** The endpoint is one of the generated seeds. */
  ghost predicate Seeded(value: Text, rule: Rule, e: Endpoint) {
    UrlText(e.scheme, e.host, Some(PortText(e.port, 0)), false) in Seeds(value, Some(rule))
  }

  lemma {:induction false} SeedsOnMembers(host: Host, scheme: Scheme, ports: seq<nat>, t: Text)
    ensures t in SeedsOn(host, scheme, ports) <==>
            t.UrlText? && t.port.Some? && t.port.value.number in ports
            && t == UrlText(scheme, host, Some(PortText(t.port.value.number, 0)), false)
    decreases |ports|
  {
    if ports != [] {
      SeedsOnMembers(host, scheme, ports[..|ports|-1], t);
      assert ports == ports[..|ports|-1] + [ports[|ports|-1]];
    }
  }

  lemma {:induction false} SeedsOverMembers(host: Host, rule: Rule, schemes: seq<Scheme>, t: Text)
    ensures t in SeedsOver(host, rule, schemes) <==>
            t.UrlText? && t.port.Some? && t.scheme in schemes && t.port.value.number in PortsFor(rule, t.scheme)
            && t == UrlText(t.scheme, host, Some(PortText(t.port.value.number, 0)), false)
    decreases |schemes|
  {
    if schemes != [] {
      var last := schemes[|schemes|-1];
      SeedsOverMembers(host, rule, schemes[..|schemes|-1], t);
      SeedsOnMembers(host, last, PortsFor(rule, last), t);
      assert schemes == schemes[..|schemes|-1] + [last];
    }
  }

  /** What the seeds of a stored authorization are: its own host, each protocol, each port. */
  lemma SeedMembers(value: Text, rule: Rule, t: Text)
    requires Stored(value, rule) && value.UrlText?
    ensures t in Seeds(value, Some(rule)) <==>
            rule.root && t.UrlText? && t.port.Some? && SchemeAllowed(rule, t.scheme)
            && PortAllowed(rule, t.scheme, t.port.value.number)
            && t == UrlText(t.scheme, value.site, Some(PortText(t.port.value.number, 0)), false)
  {
    hide Normalized;
    SeedsOverMembers(value.site, rule, Protocols(rule), t);
  }

  /** Without subdomains, a URL is authorized exactly when its endpoint is a generated seed. */
  lemma MatcherMeetsGenerator(value: Text, rule: Rule, t: Text)
    requires Stored(value, rule) && !rule.subdomains && ParseUrl(t).Some?
    ensures RuleMatches(value, rule, ParseUrl(t).value)
            <==> Seeded(value, rule, EndpointOf(ParseUrl(t).value))
  {
    hide Normalized, Seeds, ValidDomain, DangerousIp, Sort;
    StoredShape(value, rule);
    var e := EndpointOf(ParseUrl(t).value);
    SeedMembers(value, rule, UrlText(e.scheme, e.host, Some(PortText(e.port, 0)), false));
  }

  lemma StoredShape(value: Text, rule: Rule)
    requires Stored(value, rule)
    ensures value.UrlText? && value.site != [] && (Ipv4(value.site) || ValidDomain(value.site))
    ensures Sensible(rule) && (!rule.subdomains ==> rule.root)
    ensures forall port | port in rule.ports :: 1 <= port
  {
    hide DangerousIp, DangerousName, Sort;
  }

  /** A URL on the rule's own host, with its port written out, that parses and is authorized. */
  ghost predicate ConcreteMatch(value: Text, rule: Rule, t: Text) {
    && t.UrlText? && t.port.Some? && value.UrlText? && ParseUrl(t).Some?
    && EndpointOf(ParseUrl(t).value) == Endpoint(t.scheme, value.site, t.port.value.number)
    && RuleMatches(value, rule, ParseUrl(t).value)
  }

  /** With or without subdomains, every generated seed parses to a URL the rule authorizes; ports
      beyond 65535 do not exist in the rules' 16-bit port type. */
  lemma SeedsMatch(value: Text, rule: Rule, t: Text)
    requires Stored(value, rule) && t in Seeds(value, Some(rule))
    requires forall port | port in rule.ports :: port <= 65535
    ensures ConcreteMatch(value, rule, t)
  {
    hide Normalized, Seeds, ValidDomain, DangerousIp, Sort;
    StoredShape(value, rule);
    SeedMembers(value, rule, t);
  }

  /** Normalising a rule keeps the set of URLs it authorizes. */
  lemma NormalizationKeepsMatches(value: Text, rule: Rule, c: Parsed)
    requires value.UrlText? && !Wildcard(value.site) && Normalized(value, Some(rule)).Some?
    ensures var site := Normalized(value, Some(rule)).value;
            RuleMatches(value, rule, c) <==> RuleMatches(site.value, site.rule.value, c)
  {
    NormalizationIdempotent(value, Some(rule));
    hide DangerousIp, DangerousName, Sort;
  }
}

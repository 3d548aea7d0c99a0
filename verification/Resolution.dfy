/** Resolving a scope and the project's assets into concrete, authorized web endpoints. */
module Resolution {
  import opened Options
  import opened Targets
  import opened UrlRules
  import opened ScopeDecision

  const PAGE_LIMIT := 1000

  /** An active domain, subdomain or web asset row. */
  datatype Asset = Asset(id: nat, web: bool, value: Text)

  // ------------------------------------------------------ what is offered

  /** The two default endpoints of a host; a value that is no host yields no parsable URL. */
  function HostOffers(value: Text): seq<Text> {
    if value.HostText? then
      [UrlText(Http, value.host, Some(PortText(80, 0)), false), UrlText(Https, value.host, Some(PortText(443, 0)), false)]
    else []
  }

  function TargetOffers(t: ScopeTarget): seq<Text> {
    if t.mode != Include then []
    else
      match t.kind
      case Domain => HostOffers(t.value)
      case Url => Seeds(t.value, t.rule)
      case _ => []
  }

  function ScopeOffers(targets: seq<ScopeTarget>): seq<Text> {
    if targets == [] then [] else ScopeOffers(targets[..|targets|-1]) + TargetOffers(targets[|targets|-1])
  }

  /** The scope needs discovery evidence: it covers hosts it does not name. */
  predicate Dynamic(targets: seq<ScopeTarget>) {
    exists t | t in targets ::
      t.mode == Include && (t.kind == Domain || (t.kind == Url && t.rule.Some? && t.rule.value.subdomains))
  }

  /** A subdomain rule covers the host: its seeds with the host in place of the root. */
  predicate Covers(t: ScopeTarget, host: Host) {
    && t.kind == Url && t.mode == Include && t.rule.Some? && t.rule.value.subdomains
    && t.value.UrlText? && t.value.site != [] && (host == t.value.site || Under(host, t.value.site))
  }

  function RuleOffers(targets: seq<ScopeTarget>, host: Host): seq<Text> {
    if targets == [] then []
    else
      var t := targets[|targets|-1];
      RuleOffers(targets[..|targets|-1], host)
      + (if Covers(t, host) then Seeds(UrlText(Https, host, None, false), Some(t.rule.value.(root := true))) else [])
  }

  predicate WebUrl(value: Text) {
    value.UrlText? && (value.scheme == Http || value.scheme == Https)
  }

  function AssetHost(a: Asset): Text {
    if a.web && WebUrl(a.value) then HostText(a.value.site) else a.value
  }

  function AssetOffers(targets: seq<ScopeTarget>, a: Asset): seq<Text> {
    if a.web && !WebUrl(a.value) then []
    else
      (if a.web then [a.value] else [])
      + (if NormalizeDomain(AssetHost(a)).Some?
         then HostOffers(AssetHost(a)) + RuleOffers(targets, AssetHost(a).host) else [])
  }

  function TableOffers(targets: seq<ScopeTarget>, table: seq<Asset>): seq<Text> {
    if table == [] then [] else TableOffers(targets, table[..|table|-1]) + AssetOffers(targets, table[|table|-1])
  }

  // ---------------------------------------------------------- what is kept

  /** The offer is a URL the scope allows now. */
  ghost predicate Eligible(targets: seq<ScopeTarget>, t: Text) {
    && ParseTarget(t).Some? && ParseTarget(t).value.kind == Url
    && DecisionOf(targets, ParseTarget(t).value) == Allowed
  }

  function Origin(t: Text): Endpoint
    requires ParseTarget(t).Some? && ParseTarget(t).value.kind == Url
  {
    EndpointOf(ParseTarget(t).value)
  }

  /** The endpoints of the eligible offers. */
  ghost function Origins(targets: seq<ScopeTarget>, offers: seq<Text>): set<Endpoint> {
    if offers == [] then {}
    else
      var last := offers[|offers|-1];
      Origins(targets, offers[..|offers|-1]) + (if Eligible(targets, last) then {Origin(last)} else {})
  }

  /** The eligible offers as whole-site values, the first of every endpoint. */
  ghost function Kept(targets: seq<ScopeTarget>, offers: seq<Text>): seq<Text> {
    if offers == [] then []
    else
      var before := Kept(targets, offers[..|offers|-1]);
      var last := offers[|offers|-1];
      if Eligible(targets, last) && Origin(last) !in Origins(targets, offers[..|offers|-1])
      then before + [ParseTarget(last).value.value] else before
  }

  /** Parsing the whole-site value of a URL gives back the parsed URL. */
  lemma Reparse(targets: seq<ScopeTarget>, t: Text)
    requires Eligible(targets, t)
    ensures var value := ParseTarget(t).value.value;
            Eligible(targets, value) && Origin(value) == Origin(t) && NormalizeTargetValue(Url, value) == Some(value)
  {
    NormalizedParses(Url, t);
  }

  /** Every kept URL is eligible itself and normalised. */
  lemma {:induction false} KeptEligible(targets: seq<ScopeTarget>, offers: seq<Text>)
    ensures forall i | 0 <= i < |Kept(targets, offers)| ::
              var u := Kept(targets, offers)[i]; Eligible(targets, u) && NormalizeTargetValue(Url, u) == Some(u)
    decreases |offers|
  {
    hide ParseTarget, NormalizeTargetValue, DecisionOf, Origin;
    if offers != [] {
      KeptEligible(targets, offers[..|offers|-1]);
      if Eligible(targets, offers[|offers|-1]) { Reparse(targets, offers[|offers|-1]); }
    }
  }

  ghost predicate AtOrigin(targets: seq<ScopeTarget>, t: Text, e: Endpoint) {
    Eligible(targets, t) && Origin(t) == e
  }

  /** Allowed URLs with endpoints among `ends`, no endpoint twice. */
  ghost predicate Proper(targets: seq<ScopeTarget>, urls: seq<Text>, ends: set<Endpoint>) {
    && (forall i | 0 <= i < |urls| :: Eligible(targets, urls[i]) && Origin(urls[i]) in ends)
    && forall i, j | 0 <= i < j < |urls| :: Origin(urls[i]) != Origin(urls[j])
  }

  lemma ProperGrows(targets: seq<ScopeTarget>, urls: seq<Text>, ends: set<Endpoint>, t: Text)
    requires Proper(targets, urls, ends) && Eligible(targets, t)
    ensures Proper(targets, urls, ends + {Origin(t)})
    ensures Origin(t) !in ends ==> Proper(targets, urls + [t], ends + {Origin(t)})
  {
    hide ParseTarget, DecisionOf, Origin;
  }

  /** No two kept URLs share an endpoint. */
  lemma {:induction false} KeptDistinct(targets: seq<ScopeTarget>, offers: seq<Text>)
    ensures Proper(targets, Kept(targets, offers), Origins(targets, offers))
    decreases |offers|
  {
    hide ParseTarget, NormalizeTargetValue, DecisionOf, Origin;
    if offers != [] {
      var n := |offers| - 1;
      KeptDistinct(targets, offers[..n]);
      if Eligible(targets, offers[n]) {
        Reparse(targets, offers[n]);
        ProperGrows(targets, Kept(targets, offers[..n]), Origins(targets, offers[..n]),
                    ParseTarget(offers[n]).value.value);
      }
    }
  }

  /** The endpoint of every eligible offer is kept. */
  lemma {:induction false} KeptCovers(targets: seq<ScopeTarget>, offers: seq<Text>, e: Endpoint) returns (i: nat)
    requires e in Origins(targets, offers)
    ensures i < |Kept(targets, offers)| && AtOrigin(targets, Kept(targets, offers)[i], e)
    decreases |offers|
  {
    hide ParseTarget, NormalizeTargetValue, DecisionOf, Origin;
    var n := |offers| - 1;
    if e in Origins(targets, offers[..n]) {
      i := KeptCovers(targets, offers[..n], e);
    } else {
      Reparse(targets, offers[n]);
      i := |Kept(targets, offers[..n])|;
    }
  }

  /** Some URL of the list is eligible and stands for the endpoint. */
  ghost predicate Denotes(targets: seq<ScopeTarget>, list: seq<Text>, e: Endpoint) {
    exists i :: 0 <= i < |list| && AtOrigin(targets, list[i], e)
  }

  lemma {:induction false} OriginsMembers(targets: seq<ScopeTarget>, offers: seq<Text>, e: Endpoint)
    ensures e in Origins(targets, offers) <==> Denotes(targets, offers, e)
    decreases |offers|
  {
    hide ParseTarget, DecisionOf, Origin;
    if offers != [] {
      var n := |offers| - 1;
      OriginsMembers(targets, offers[..n], e);
      if e in Origins(targets, offers) {
        if e in Origins(targets, offers[..n]) {
          var i :| 0 <= i < n && AtOrigin(targets, offers[..n][i], e);
          assert AtOrigin(targets, offers[i], e);
        } else {
          assert AtOrigin(targets, offers[n], e);
        }
      }
      if exists i :: 0 <= i < |offers| && AtOrigin(targets, offers[i], e) {
        var i :| 0 <= i < |offers| && AtOrigin(targets, offers[i], e);
        if i < n { assert AtOrigin(targets, offers[..n][i], e); }
      }
    }
  }

  // ------------------------------------------------------------ the program

  /** ListWebBlueprintAssets: the active rows after a cursor, at most a page of them. */
  function After(table: seq<Asset>, cursor: nat): seq<Asset> {
    if table == [] then []
    else After(table[..|table|-1], cursor) + (if table[|table|-1].id > cursor then [table[|table|-1]] else [])
  }

  function Page(table: seq<Asset>, cursor: nat): seq<Asset> {
    var rest := After(table, cursor);
    if |rest| <= PAGE_LIMIT then rest else rest[..PAGE_LIMIT]
  }

  /** The table in id order. */
  predicate Ordered(table: seq<Asset>) {
    && (forall i, j | 0 <= i < j < |table| :: table[i].id < table[j].id)
    && forall i | 0 <= i < |table| :: 0 < table[i].id
  }

  /** The cursor after `k` rows. */
  function Cursor(table: seq<Asset>, k: nat): nat
    requires k <= |table|
  {
    if k == 0 then 0 else table[k - 1].id
  }

  /** The rows after a row's id are the rows behind it. */
  lemma AfterRow(table: seq<Asset>, k: nat)
    requires Ordered(table) && k <= |table|
    ensures After(table, Cursor(table, k)) == table[k..]
  {
    hide After;
    var cursor := Cursor(table, k);
    CursorSplits(table, k);
    AfterNone(table[..k], cursor);
    AfterAll(table, k, cursor);
  }

  lemma CursorSplits(table: seq<Asset>, k: nat)
    requires Ordered(table) && k <= |table|
    ensures forall i | 0 <= i < |table[..k]| :: table[..k][i].id <= Cursor(table, k)
    ensures forall i | k <= i < |table| :: table[i].id > Cursor(table, k)
  {
    forall i | 0 <= i < k ensures table[i].id <= Cursor(table, k) {
      if i < k - 1 { assert table[i].id < table[k - 1].id; }
    }
    forall i | k <= i < |table| ensures table[i].id > Cursor(table, k) {
      if k > 0 { assert table[k - 1].id < table[i].id; }
    }
  }

  lemma {:induction false} AfterAll(table: seq<Asset>, k: nat, cursor: nat)
    requires k <= |table| && After(table[..k], cursor) == []
    requires forall i | k <= i < |table| :: table[i].id > cursor
    ensures After(table, cursor) == table[k..]
    decreases |table|
  {
    if k == |table| {
      assert table[..k] == table;
    } else {
      var n := |table| - 1;
      assert table[..n][..k] == table[..k];
      AfterAll(table[..n], k, cursor);
      assert table[k..] == table[..n][k..] + [table[n]];
    }
  }

  lemma {:induction false} AfterNone(table: seq<Asset>, cursor: nat)
    requires forall i | 0 <= i < |table| :: table[i].id <= cursor
    ensures After(table, cursor) == []
    decreases |table|
  {
    if table != [] { AfterNone(table[..|table|-1], cursor); }
  }

  lemma Join<T>(a: seq<T>, b: seq<T>, c: seq<T>)
    ensures (a + b) + c == a + (b + c)
  {}

  lemma {:induction false} OffersStep(targets: seq<ScopeTarget>, host: Host, i: nat)
    requires i < |targets|
    ensures ScopeOffers(targets[..i + 1]) == ScopeOffers(targets[..i]) + TargetOffers(targets[i])
    ensures RuleOffers(targets[..i + 1], host) == RuleOffers(targets[..i], host)
              + (if Covers(targets[i], host)
                 then Seeds(UrlText(Https, host, None, false), Some(targets[i].rule.value.(root := true))) else [])
    ensures Dynamic(targets[..i + 1]) <==> Dynamic(targets[..i]) || Dynamic([targets[i]])
  {
    assert targets[..i + 1][..i] == targets[..i] && targets[..i + 1] == targets[..i] + [targets[i]];
  }

  lemma TableStep(targets: seq<ScopeTarget>, table: seq<Asset>, k: nat)
    requires k < |table|
    ensures TableOffers(targets, table[..k + 1]) == TableOffers(targets, table[..k]) + AssetOffers(targets, table[k])
  {
    assert table[..k + 1][..k] == table[..k];
  }

  /** The accumulators of resolveWebBlueprintTargets; `offers` records what was passed to add. */
  class Resolver {
    const targets: seq<ScopeTarget>
    var urls: seq<Text>
    var seen: set<Endpoint>
    ghost var offers: seq<Text>

    ghost predicate Valid()
      reads this
    {
      urls == Kept(targets, offers) && seen == Origins(targets, offers)
    }

    constructor (targets: seq<ScopeTarget>)
      ensures Valid() && offers == [] && this.targets == targets
    {
      this.targets := targets;
      urls, seen, offers := [], {}, [];
    }

    /** add: keep an allowed URL whose endpoint is new. */
    method Add(raw: Text)
      requires Valid()
      modifies this
      ensures Valid() && offers == old(offers) + [raw]
    {
      hide ParseTarget, DecisionOf;
      offers := offers + [raw];
      assert offers[..|offers|-1] == old(offers);
      var parsed := ParseTarget(raw);
      if parsed == None || parsed.value.kind != Url { return; }
      var decision := ScopeMatchDecision(targets, parsed.value);
      if decision != Allowed { return; }
      assert Eligible(targets, raw);
      var key := Origin(raw);
      if key in seen { return; }
      seen := seen + {key};
      urls := urls + [parsed.value.value];
    }

    /** A loop of add over a list of URLs. */
    method AddAll(values: seq<Text>)
      requires Valid()
      modifies this
      ensures Valid() && offers == old(offers) + values
    {
      hide Kept, Origins;
      for i := 0 to |values|
        invariant Valid() && offers == old(offers) + values[..i]
      {
        Add(values[i]);
        assert values[..i + 1] == values[..i] + [values[i]];
      }
      assert values[..|values|] == values;
    }

    /** addHost. */
    method AddHost(value: Text)
      requires Valid()
      modifies this
      ensures Valid() && offers == old(offers) + HostOffers(value)
    {
      hide Kept, Origins;
      if value.HostText? {
        Add(UrlText(Http, value.host, Some(PortText(80, 0)), false));
        Add(UrlText(Https, value.host, Some(PortText(443, 0)), false));
      }
    }

    /** One target of the scope. */
    method AddTarget(target: ScopeTarget) returns (dynamic: bool)
      requires Valid()
      modifies this
      ensures Valid() && offers == old(offers) + TargetOffers(target)
      ensures dynamic <==> Dynamic([target])
    {
      hide Kept, Origins, Seeds, HostOffers;
      assert target in [target];
      if target.mode != Include { return false; }
      if target.kind == Domain {
        AddHost(target.value);
        return true;
      }
      if target.kind == Url {
        var seeds := ScopeUrlSeeds(target.value, target.rule);
        AddAll(seeds);
        return target.rule.Some? && target.rule.value.subdomains;
      }
      return false;
    }

    /** The loop over the scope's targets; reports whether asset evidence is needed. */
    method AddTargets() returns (dynamic: bool)
      requires Valid() && offers == []
      modifies this
      ensures Valid() && offers == ScopeOffers(targets)
      ensures dynamic <==> Dynamic(targets)
    {
      hide Kept, Origins, TargetOffers;
      dynamic := false;
      for i := 0 to |targets|
        invariant Valid() && offers == ScopeOffers(targets[..i])
        invariant dynamic <==> Dynamic(targets[..i])
      {
        OffersStep(targets, [], i);
        var more := AddTarget(targets[i]);
        dynamic := dynamic || more;
      }
      assert targets[..|targets|] == targets;
    }

    /** The loop over the subdomain rules for one discovered host. */
    method AddRules(host: Host)
      requires Valid()
      modifies this
      ensures Valid() && offers == old(offers) + RuleOffers(targets, host)
    {
      hide Kept, Origins, Seeds;
      ghost var start := offers;
      for i := 0 to |targets|
        invariant Valid() && offers == start + RuleOffers(targets[..i], host)
      {
        OffersStep(targets, host, i);
        if !Covers(targets[i], host) { continue; }
        var seeds := ScopeUrlSeeds(UrlText(Https, host, None, false), Some(targets[i].rule.value.(root := true)));
        Join(start, RuleOffers(targets[..i], host), seeds);
        AddAll(seeds);
      }
      assert targets[..|targets|] == targets;
    }

    /** One asset row. */
    method AddAsset(a: Asset)
      requires Valid()
      modifies this
      ensures Valid() && offers == old(offers) + AssetOffers(targets, a)
    {
      hide Kept, Origins, HostOffers, RuleOffers, ValidDomain;
      ghost var start := offers;
      var host := a.value;
      if a.web {
        if !WebUrl(a.value) { return; }
        Add(a.value);
        host := HostText(a.value.site);
      }
      if NormalizeDomain(host) == None { return; }
      AddHost(host);
      AddRules(host.host);
      assert offers == start + ((if a.web then [a.value] else []) + (HostOffers(host) + RuleOffers(targets, host.host)));
    }

    /** One page of assets; `k` rows of the table came before it. */
    method AddPage(assets: seq<Asset>, afterId: nat, ghost table: seq<Asset>, ghost k: nat) returns (ok: bool, last: nat)
      requires Valid() && Ordered(table) && k + |assets| <= |table| && assets == table[k..k + |assets|]
      requires afterId == Cursor(table, k) && assets != []
      modifies this
      ensures ok && Valid() && last == Cursor(table, k + |assets|)
      ensures old(offers) == ScopeOffers(targets) + TableOffers(targets, table[..k]) ==>
                offers == ScopeOffers(targets) + TableOffers(targets, table[..k + |assets|])
    {
      hide Kept, Origins, AssetOffers, ScopeOffers;
      ghost var inStep := offers == ScopeOffers(targets) + TableOffers(targets, table[..k]);
      last := afterId;
      for i := 0 to |assets|
        invariant Valid() && last == Cursor(table, k + i)
        invariant inStep ==> offers == ScopeOffers(targets) + TableOffers(targets, table[..k + i])
      {
        assert assets[i] == table[k + i];
        if assets[i].id <= last { return false, last; }
        last := assets[i].id;
        TableStep(targets, table, k + i);
        Join(ScopeOffers(targets), TableOffers(targets, table[..k + i]), AssetOffers(targets, assets[i]));
        AddAsset(assets[i]);
      }
      ok := true;
    }

    /** resolveWebBlueprintTargets: the scope's own targets, then the assets page by page. */
    method Resolve(table: seq<Asset>) returns (ok: bool)
      requires Valid() && offers == [] && Ordered(table)
      modifies this
      ensures ok && Valid()
      ensures offers == ScopeOffers(targets) + if Dynamic(targets) then TableOffers(targets, table) else []
    {
      hide Kept, Origins, ScopeOffers, Dynamic, AssetOffers;
      var dynamic := AddTargets();
      if !dynamic { return true; }
      var afterId := 0;
      ghost var k := 0;
      while true
        invariant Valid() && k <= |table| && afterId == Cursor(table, k)
        invariant offers == ScopeOffers(targets) + TableOffers(targets, table[..k])
        decreases |table| - k
      {
        AfterRow(table, k);
        var assets := Page(table, afterId);
        if |assets| == 0 {
          assert table[..k] == table;
          return true;
        }
        ok, afterId := AddPage(assets, afterId, table, k);
        if !ok { return; }
        k := k + |assets|;
      }
    }
  }

  // ---------------------------------------------------------- dispatch time

  /** What dispatch accepts of a configuration's targets: all of them, as they normalise, now. */
  ghost predicate Dispatchable(scope: Option<Scope>, now: nat, targets: seq<(Kind, Text)>) {
    targets != [] && scope.Some? && forall i | 0 <= i < |targets| ::
      && NormalizeTargetValue(targets[i].0, targets[i].1).Some?
      && AllowedNow(scope.value, now, targets[i].0, NormalizeTargetValue(targets[i].0, targets[i].1).value)
  }

  /** The target checks of BuildDispatchPlan: parse the whole configuration, then ask the scope. */
  method CheckDispatchTargets(scope: Option<Scope>, now: nat, targets: seq<(Kind, Text)>) returns (ok: bool)
    ensures ok <==> Dispatchable(scope, now, targets)
  {
    hide NormalizeTargetValue, AllowedNow;
    if |targets| == 0 { return false; }
    var config: seq<(Kind, Text)> := [];
    for i := 0 to |targets|
      invariant |config| == i
      invariant forall j | 0 <= j < i :: NormalizeTargetValue(targets[j].0, targets[j].1).Some?
                  && config[j] == (targets[j].0, NormalizeTargetValue(targets[j].0, targets[j].1).value)
    {
      var value := NormalizeTargetValue(targets[i].0, targets[i].1);
      if value == None { return false; }
      config := config + [(targets[i].0, value.value)];
    }
    for i := 0 to |config|
      invariant i > 0 ==> scope.Some?
      invariant forall j | 0 <= j < i :: scope.Some? && AllowedNow(scope.value, now, config[j].0, config[j].1)
    {
      var allowed, reason := IsTypedTargetAllowed(scope, now, config[i].0, config[i].1);
      if !allowed {
        assert config[i] == (targets[i].0, NormalizeTargetValue(targets[i].0, targets[i].1).value);
        return false;
      }
    }
    forall i | 0 <= i < |targets|
      ensures AllowedNow(scope.value, now, targets[i].0, NormalizeTargetValue(targets[i].0, targets[i].1).value)
    {
      assert config[i] == (targets[i].0, NormalizeTargetValue(targets[i].0, targets[i].1).value);
    }
    return true;
  }

  // ----------------------------------------------------------- main results

  /** Resolution is exact: the kept URLs denote, once each, the endpoints of the offered URLs the
      scope allows. */
  lemma ResolutionIsExact(targets: seq<ScopeTarget>, offers: seq<Text>)
    ensures var urls := Kept(targets, offers);
            && (forall i | 0 <= i < |urls| :: Eligible(targets, urls[i]))
            && (forall i, j | 0 <= i < j < |urls| :: Origin(urls[i]) != Origin(urls[j]))
            && forall e :: Denotes(targets, urls, e) <==> Denotes(targets, offers, e)
  {
    hide ParseTarget, DecisionOf, Origin, Kept;
    var urls := Kept(targets, offers);
    KeptDistinct(targets, offers);
    forall e ensures Denotes(targets, urls, e) <==> Denotes(targets, offers, e) {
      OriginsMembers(targets, offers, e);
      if e in Origins(targets, offers) {
        var i := KeptCovers(targets, offers, e);
        assert AtOrigin(targets, urls[i], e);
      }
    }
  }

  /** The dispatch-time check accepts every resolved URL while the scope is unchanged and in force. */
  lemma DispatchAccepts(scope: Scope, now: nat, offers: seq<Text>, u: Text)
    requires InForce(scope, now) && u in Kept(scope.targets, offers)
    ensures NormalizeTargetValue(Url, u) == Some(u) && AllowedNow(scope, now, Url, u)
  {
    KeptEligible(scope.targets, offers);
  }
}

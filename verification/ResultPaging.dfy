/** Pulling an active run's result pages: bounded batches, the facts they carry, the page loop. */
module ResultPaging {
  import opened Options
  import opened PackingLoop
  import opened Runs

  const BATCH_FACTS := 1800
  const MAX_FACTS := 2000
  const MAX_PORTS := 1000
  const PAGE_SIZE := 50
  const MAX_TARGETS := 1000
  const MAX_PAGES := 20

  datatype Kind = PortProbe | WebProbe | Unsupported

  /** A status code text: absent, not a code in 100..599, or a code. */
  datatype Code = Absent | Malformed | Known(code: nat)

  /** A fingerprint after text sanitising: no name when it is blank or redacted. */
  datatype Fingerprint = Fingerprint(name: Option<nat>, status: Code, title: Option<nat>)

  datatype Site = Site(host: nat, url: nat, protocol: nat, port: nat)

  /** One result. `host` and `site` are None when the target text does not normalise; `parts` are
      the comma-separated pieces of the port text, None where a piece is not a number. */
  datatype Item =
    | PortItem(host: Option<nat>, parts: seq<Option<int>>)
    | WebItem(site: Option<Site>, fingerprints: seq<Fingerprint>, target: nat, details: nat)

  datatype Key =
    | HostAsset(host: nat)
    | WebAsset(url: nat)
    | Contains(host: nat, url: nat)
    | PortKey(host: nat, number: nat)
    | WebKey(host: nat, url: nat)
    | ServiceKey(host: nat, protocol: nat, port: nat, name: nat)

  datatype Exposure =
    | OpenPort
    | Page(code: Code, title: Option<nat>, names: set<nat>, details: nat)
    | ServiceOn(url: nat)

  /** A callback payload: assets and relations are determined by their keys, exposures are not. */
  datatype Payload = Payload(assets: set<Key>, relations: set<Key>, exposures: map<Key, Exposure>, targets: set<Key>)

  const NOTHING := Payload({}, {}, map[], {})

  function FactKeys(p: Payload): set<Key> {
    p.assets + p.relations + p.exposures.Keys
  }

  /** What ingesting `later` after `earlier` leaves stored. */
  function Merge(earlier: Payload, later: Payload): Payload {
    Payload(earlier.assets + later.assets, earlier.relations + later.relations,
            earlier.exposures + later.exposures, earlier.targets + later.targets)
  }

  // ------------------------------------------------------------ single items

  predicate PortPart(part: Option<int>) {
    part.Some? && 1 <= part.value <= 65535
  }

  function PortSet(parts: seq<Option<int>>): set<nat> {
    set part | part in parts && PortPart(part) :: part.value as nat
  }

  predicate PortsParse(parts: seq<Option<int>>) {
    (forall part | part in parts :: PortPart(part)) && |PortSet(parts)| <= MAX_PORTS
  }

  /** parseActivePorts, up to the order of its answer. */
  method ParseActivePorts(parts: seq<Option<int>>) returns (ports: Option<set<nat>>)
    ensures ports == if PortsParse(parts) then Some(PortSet(parts)) else None
  {
    var seen: set<nat> := {};
    for i := 0 to |parts|
      invariant forall part | part in parts[..i] :: PortPart(part)
      invariant seen == PortSet(parts[..i]) && |seen| <= MAX_PORTS
    {
      var part := parts[i];
      assert part in parts && parts[..i + 1] == parts[..i] + [part];
      if part == None || part.value < 1 || part.value > 65535 { return None; }
      seen := seen + {part.value};
      assert seen == PortSet(parts[..i + 1]);
      if |seen| > MAX_PORTS {
        Larger(PortSet(parts[..i + 1]), PortSet(parts));
        return None;
      }
    }
    assert parts[..|parts|] == parts;
    return Some(seen);
  }

  lemma Larger<T>(a: set<T>, b: set<T>)
    requires a <= b
    ensures |a| <= |b|
  {
    assert b == a + (b - a);
  }

  ghost predicate CodesAgree(items: seq<Fingerprint>) {
    && (forall f | f in items :: f.status != Malformed)
    && forall f, g | f in items && g in items && f.status.Known? && g.status.Known? :: f.status == g.status
  }

  ghost function CodeOf(items: seq<Fingerprint>): Code {
    if items == [] then Absent
    else if CodeOf(items[..|items|-1]) == Absent then items[|items|-1].status else CodeOf(items[..|items|-1])
  }

  ghost function TitleOf(items: seq<Fingerprint>): Option<nat> {
    if items == [] then None
    else if TitleOf(items[..|items|-1]) == None then items[|items|-1].title else TitleOf(items[..|items|-1])
  }

  function Names(items: seq<Fingerprint>): set<nat> {
    set f | f in items && f.name.Some? :: f.name.value
  }

  /** normalizeActiveFingerprints: one status code at most, the first title, distinct names. */
  method NormalizeActiveFingerprints(items: seq<Fingerprint>)
    returns (ok: bool, names: set<nat>, code: Code, title: Option<nat>)
    ensures ok <==> CodesAgree(items)
    ensures ok ==> names == Names(items) && code == CodeOf(items) && title == TitleOf(items)
  {
    names, code, title := {}, Absent, None;
    for i := 0 to |items|
      invariant names == Names(items[..i]) && title == TitleOf(items[..i]) && code == CodeOf(items[..i])
      invariant CodesAgree(items[..i]) && (code.Known? ==> exists f :: f in items[..i] && f.status == code)
      invariant code != Malformed && (code == Absent ==> forall f | f in items[..i] :: f.status == Absent)
    {
      var item := items[i];
      assert items[..i + 1] == items[..i] + [item] && item in items;
      assert items[..i + 1][..i] == items[..i];
      if item.name.Some? { names := names + {item.name.value}; }
      assert names == Names(items[..i + 1]);
      if item.status == Malformed { return false, names, code, title; }
      if code == Absent && item.status != Absent {
        code := item.status;
      } else if item.status != Absent && item.status != code {
        return false, names, code, title;
      }
      if title == None { title := item.title; }
    }
    assert items[..|items|] == items;
    return true, names, code, title;
  }

  predicate RightKind(kind: Kind, item: Item) {
    (kind == PortProbe && item.PortItem?) || (kind == WebProbe && item.WebItem?)
  }

  /** What splitActiveResultPage charges for one result; None where it refuses it. */
  function Cost(item: Item): Option<nat> {
    match item
    case PortItem(_, parts) => if PortsParse(parts) then Some(1 + |PortSet(parts)|) else None
    case WebItem(_, fingerprints, _, _) => Some(4 + |fingerprints|)
  }

  predicate Splittable(kind: Kind, item: Item) {
    RightKind(kind, item) && Cost(item).Some? && Cost(item).value <= BATCH_FACTS
  }

  predicate AllSplittable(kind: Kind, items: seq<Item>) {
    forall i | 0 <= i < |items| :: Splittable(kind, items[i])
  }

  ghost predicate Buildable(kind: Kind, item: Item) {
    RightKind(kind, item) &&
    match item
    case PortItem(host, parts) => host.Some? && PortsParse(parts)
    case WebItem(site, fingerprints, _, _) => site.Some? && CodesAgree(fingerprints)
  }

  function OpenPorts(host: nat, ports: set<nat>): map<Key, Exposure> {
    map port | port in ports :: PortKey(host, port) := OpenPort
  }

  function Services(s: Site, names: set<nat>): map<Key, Exposure> {
    map name | name in names :: ServiceKey(s.host, s.protocol, s.port, name) := ServiceOn(s.url)
  }

  function HostFacts(host: nat, ports: set<nat>): Payload {
    Payload({HostAsset(host)}, {}, OpenPorts(host, ports), {HostAsset(host)})
  }

  function SiteFacts(s: Site, page: Exposure, names: set<nat>, target: nat): Payload {
    Payload({HostAsset(s.host), WebAsset(s.url)}, {Contains(s.host, s.url)},
            map[WebKey(s.host, s.url) := page] + Services(s, names), {WebAsset(target)})
  }

  /** The facts of one result. */
  ghost function FactsOf(item: Item): Payload {
    match item
    case PortItem(host, parts) => if host == None then NOTHING else HostFacts(host.value, PortSet(parts))
    case WebItem(site, fingerprints, target, details) =>
      if site == None then NOTHING
      else
        var names := Names(fingerprints);
        SiteFacts(site.value, Page(CodeOf(fingerprints), TitleOf(fingerprints), names, details), names, target)
  }

  ghost function Facts(items: seq<Item>): Payload {
    if items == [] then NOTHING else Merge(Facts(items[..|items|-1]), FactsOf(items[|items|-1]))
  }

  // --------------------------------------------------------------- splitting

  /** The charge of a result for the packing loop; None where the page is refused. */
  function Charge(kind: Kind): Item -> Option<nat> {
    item => if Splittable(kind, item) then Cost(item) else None
  }

  /** The split of a page: every result once and in order, within the limit, none closed early. */
  ghost predicate SplitOf(kind: Kind, items: seq<Item>, batches: seq<seq<Item>>) {
    Packing(items, batches, Charge(kind), BATCH_FACTS)
  }

  /** splitActiveResultPage. */
  method SplitActiveResultPage(kind: Kind, items: seq<Item>) returns (r: Option<seq<seq<Item>>>)
    ensures r.Some? <==> kind != Unsupported && AllSplittable(kind, items)
    ensures r.Some? ==> SplitOf(kind, items, r.value)
  {
    if kind == Unsupported { return None; }
    r := Pack(items, Charge(kind), BATCH_FACTS);
  }

  // ---------------------------------------------------------------- payloads

  function Size(p: Payload): nat {
    |p.assets| + |p.relations| + |p.exposures|
  }

  lemma MergeSize(a: Payload, b: Payload)
    ensures Size(Merge(a, b)) <= Size(a) + Size(b)
  {
    assert |a.exposures| == |a.exposures.Keys| && |b.exposures| == |b.exposures.Keys|;
    assert (a.exposures + b.exposures).Keys == a.exposures.Keys + b.exposures.Keys;
    assert |(a.exposures + b.exposures)| == |a.exposures.Keys + b.exposures.Keys|;
  }

  lemma {:induction false} NamesNoLarger(items: seq<Fingerprint>)
    ensures |Names(items)| <= |items|
    decreases |items|
  {
    if items == [] {
      assert Names(items) == {};
    } else {
      var n := |items| - 1;
      NamesNoLarger(items[..n]);
      assert items == items[..n] + [items[n]];
      assert Names(items) == Names(items[..n]) + (if items[n].name.Some? then {items[n].name.value} else {});
    }
  }

  lemma {:induction false} OpenPortsSize(host: nat, ports: set<nat>)
    ensures |OpenPorts(host, ports)| <= |ports|
    decreases |ports|
  {
    if ports == {} {
      assert OpenPorts(host, ports) == map[];
    } else {
      var port :| port in ports;
      OpenPortsSize(host, ports - {port});
      MapGrows(OpenPorts(host, ports - {port}), PortKey(host, port), OpenPort);
      assert OpenPorts(host, ports) == OpenPorts(host, ports - {port})[PortKey(host, port) := OpenPort];
    }
  }

  lemma {:induction false} ServicesSize(s: Site, names: set<nat>)
    ensures |Services(s, names)| <= |names|
    decreases |names|
  {
    if names != {} {
      var name :| name in names;
      ServicesSize(s, names - {name});
      MapGrows(Services(s, names - {name}), ServiceKey(s.host, s.protocol, s.port, name), ServiceOn(s.url));
      assert Services(s, names)
          == Services(s, names - {name})[ServiceKey(s.host, s.protocol, s.port, name) := ServiceOn(s.url)];
    } else {
      assert Services(s, names) == map[];
    }
  }

  lemma MapGrows(m: map<Key, Exposure>, key: Key, value: Exposure)
    ensures |m[key := value]| <= |m| + 1
  {
    assert m[key := value].Keys == m.Keys + {key};
    assert |m[key := value]| == |m.Keys + {key}| && |m| == |m.Keys|;
  }

  /** The cost charged for a result covers its facts. */
  lemma CostCovers(item: Item)
    requires Cost(item).Some?
    ensures Size(FactsOf(item)) <= Cost(item).value
  {
    match item
    case PortItem(host, parts) => if host.Some? { OpenPortsSize(host.value, PortSet(parts)); }
    case WebItem(site, fingerprints, target, details) =>
      var names := Names(fingerprints);
      NamesNoLarger(fingerprints);
      if site.Some? {
        var page := map[WebKey(site.value.host, site.value.url) :=
                          Page(CodeOf(fingerprints), TitleOf(fingerprints), names, details)];
        ServicesSize(site.value, names);
        MergeSize(NOTHING.(exposures := page), NOTHING.(exposures := Services(site.value, names)));
      }
  }

  /** A batch within the fact limit builds a payload far from the payload limit. */
  lemma {:induction false} BatchFits(kind: Kind, items: seq<Item>)
    requires AllSplittable(kind, items)
    ensures Size(Facts(items)) <= TotalCost(items, Charge(kind))
    decreases |items|
  {
    if items != [] {
      BatchFits(kind, items[..|items|-1]);
      CostCovers(items[|items|-1]);
      MergeSize(Facts(items[..|items|-1]), FactsOf(items[|items|-1]));
    }
  }

  /** One turn of buildActiveResultPayload's loop. */
  method ItemFacts(kind: Kind, item: Item) returns (r: Option<Payload>)
    ensures r.Some? <==> Buildable(kind, item)
    ensures r.Some? ==> r.value == FactsOf(item)
  {
    if !RightKind(kind, item) { return None; }
    match item {
      case PortItem(host, parts) =>
        if host == None { return None; }
        var ports := ParseActivePorts(parts);
        if ports == None { return None; }
        return Some(HostFacts(host.value, ports.value));
      case WebItem(site, fingerprints, target, details) =>
        if site == None { return None; }
        var ok, names, code, title := NormalizeActiveFingerprints(fingerprints);
        if !ok { return None; }
        return Some(SiteFacts(site.value, Page(code, title, names, details), names, target));
    }
  }

  ghost predicate AllBuildable(kind: Kind, items: seq<Item>) {
    forall i | 0 <= i < |items| :: Buildable(kind, items[i])
  }

  lemma FactsStep(items: seq<Item>, i: nat, payload: Payload, facts: Payload)
    requires i < |items| && payload == Facts(items[..i]) && facts == FactsOf(items[i])
    ensures Merge(payload, facts) == Facts(items[..i + 1])
  {
    assert items[..i + 1][..i] == items[..i] && items[..i + 1][i] == items[i];
  }

  lemma BuildableStep(kind: Kind, items: seq<Item>, i: nat)
    requires i < |items|
    ensures AllBuildable(kind, items[..i + 1]) <==> AllBuildable(kind, items[..i]) && Buildable(kind, items[i])
    ensures AllBuildable(kind, items) ==> Buildable(kind, items[i])
  {
    assert forall j | 0 <= j < i :: items[..i + 1][j] == items[..i][j];
    assert items[..i + 1][i] == items[i];
  }

  /** The loop of buildActiveResultPayload. */
  method MergeItems(kind: Kind, items: seq<Item>) returns (r: Option<Payload>)
    ensures r.Some? <==> AllBuildable(kind, items)
    ensures r.Some? ==> r.value == Facts(items)
  {
    var payload := NOTHING;
    for i := 0 to |items|
      invariant AllBuildable(kind, items[..i]) && payload == Facts(items[..i])
    {
      var facts := ItemFacts(kind, items[i]);
      BuildableStep(kind, items, i);
      if facts == None { return None; }
      FactsStep(items, i, payload, facts.value);
      payload := Merge(payload, facts.value);
    }
    assert items[..|items|] == items;
    return Some(payload);
  }

  ghost predicate PayloadOk(kind: Kind, items: seq<Item>) {
    kind != Unsupported && AllBuildable(kind, items) && Size(Facts(items)) <= MAX_FACTS
  }

  /** buildActiveResultPayload: keyed maps filled result by result, refused above the fact limit. */
  method BuildActiveResultPayload(kind: Kind, items: seq<Item>) returns (r: Option<Payload>)
    ensures r.Some? <==> PayloadOk(kind, items)
    ensures r.Some? ==> r.value == Facts(items)
  {
    if kind == Unsupported { return None; }
    r := MergeItems(kind, items);
    if r.Some? {
      var resultCount := |r.value.assets| + |r.value.relations| + |r.value.exposures|;
      if resultCount > MAX_FACTS { return None; }
    }
  }

  // ---------------------------------------------------- splitting keeps facts

  lemma MergeAssociates(a: Payload, b: Payload, c: Payload)
    ensures Merge(Merge(a, b), c) == Merge(a, Merge(b, c)) && Merge(a, NOTHING) == a
  {
    assert (a.exposures + b.exposures) + c.exposures == a.exposures + (b.exposures + c.exposures);
    assert a.exposures + map[] == a.exposures;
  }

  lemma {:induction false} FactsAppend(a: seq<Item>, b: seq<Item>)
    ensures Facts(a + b) == Merge(Facts(a), Facts(b))
    decreases |b|
  {
    if b == [] {
      assert a + b == a;
      MergeAssociates(Facts(a), NOTHING, NOTHING);
    } else {
      var n := |b| - 1;
      FactsAppend(a, b[..n]);
      LastFacts(a + b);
      LastFacts(b);
      assert (a + b)[..|a + b|-1] == a + b[..n];
      MergeAssociates(Facts(a), Facts(b[..n]), FactsOf(b[n]));
    }
  }

  lemma LastFacts(items: seq<Item>)
    requires items != []
    ensures Facts(items) == Merge(Facts(items[..|items|-1]), FactsOf(items[|items|-1]))
  {}

  /** What ingesting the batches one after the other leaves stored. */
  ghost function MergeAll(batches: seq<seq<Item>>): Payload {
    if batches == [] then NOTHING else Merge(MergeAll(batches[..|batches|-1]), Facts(batches[|batches|-1]))
  }

  /** Ingesting the batches of a page leaves exactly the facts, contents included, of the page. */
  lemma {:induction false} SplittingKeepsFacts(batches: seq<seq<Item>>)
    ensures MergeAll(batches) == Facts(Concat(batches))
    decreases |batches|
  {
    if batches != [] {
      SplittingKeepsFacts(batches[..|batches|-1]);
      FactsAppend(Concat(batches[..|batches|-1]), batches[|batches|-1]);
    }
  }

  lemma {:induction false} KeysGrow(items: seq<Item>, k: nat)
    requires k <= |items|
    ensures FactKeys(Facts(items[..k])) <= FactKeys(Facts(items)) && Facts(items[..k]).targets <= Facts(items).targets
    ensures Facts(items[..k]).exposures.Keys <= Facts(items).exposures.Keys
    ensures Facts(items[..k]).assets <= Facts(items).assets && Facts(items[..k]).relations <= Facts(items).relations
  {
    FactsAppend(items[..k], items[k..]);
    assert items[..k] + items[k..] == items;
  }

  /** Replaying from the start after an interrupted attempt converges to one clean attempt. */
  lemma ReplayConverges(items: seq<Item>, k: nat)
    requires k <= |items|
    ensures Merge(Facts(items[..k]), Facts(items)) == Facts(items)
  {
    KeysGrow(items, k);
    assert Facts(items[..k]).exposures + Facts(items).exposures == Facts(items).exposures;
  }

  // ------------------------------------------------------------ the page loop

  /** A fetched page; `echoes` says it repeats the requested task, page number and page size. */
  datatype Fetched = Fetched(echoes: bool, total: int, finished: int, items: seq<Item>)

  function Pages(total: int): int {
    (total + PAGE_SIZE - 1) / PAGE_SIZE
  }

  /** What the engine answers for pages 1, 2, ...; None is a failed request. */
  type Answers = seq<Option<Fetched>>

  function Fetch(answers: Answers, number: nat): Option<Fetched> {
    if 1 <= number <= |answers| then answers[number - 1] else None
  }

  predicate HeaderOk(page: Option<Fetched>) {
    && page.Some? && page.value.echoes
    && 0 < page.value.total <= MAX_TARGETS && 0 <= page.value.finished <= page.value.total
  }

  ghost predicate ItemsOk(kind: Kind, items: seq<Item>) {
    kind != Unsupported && AllSplittable(kind, items) && AllBuildable(kind, items)
  }

  /** The page's header is well formed and agrees with the first page's. */
  predicate HeaderAgrees(answers: Answers, number: nat) {
    && HeaderOk(Fetch(answers, 1)) && HeaderOk(Fetch(answers, number))
    && Fetch(answers, number).value.total == Fetch(answers, 1).value.total
    && Fetch(answers, number).value.finished == Fetch(answers, 1).value.finished
  }

  ghost predicate PageOk(kind: Kind, answers: Answers, number: nat) {
    HeaderAgrees(answers, number) && ItemsOk(kind, Fetch(answers, number).value.items)
  }

  function AllItems(answers: Answers, pages: nat): seq<Item> {
    if pages == 0 then []
    else AllItems(answers, pages - 1) + (if Fetch(answers, pages).Some? then Fetch(answers, pages).value.items else [])
  }

  ghost predicate PullOk(kind: Kind, answers: Answers) {
    HeaderOk(Fetch(answers, 1)) && PagesOk(kind, answers, Pages(Fetch(answers, 1).value.total))
  }

  /** A batch of a split page never produces more than 1800 facts, so it builds whenever the page's
      results do: the 2000-fact rejection is never met. */
  lemma BatchOk(kind: Kind, items: seq<Item>, batches: seq<seq<Item>>, k: nat)
    requires SplitOf(kind, items, batches) && k < |batches| && ItemsOk(kind, items)
    ensures PayloadOk(kind, batches[k]) && Size(Facts(batches[k])) <= BATCH_FACTS
  {
    ConcatContains(batches, k);
    forall i | 0 <= i < |batches[k]| ensures Splittable(kind, batches[k][i]) && Buildable(kind, batches[k][i]) {
      assert batches[k][i] in items;
    }
    BatchFits(kind, batches[k]);
  }

  /** The pull's accumulators after ingesting the batches that hold `ingested`. */
  ghost predicate Collected(facts: set<Key>, targets: set<Key>, ingested: seq<Item>) {
    facts == FactKeys(Facts(ingested)) && targets == Facts(ingested).targets
  }

  lemma CollectedStep(facts: set<Key>, targets: set<Key>, ingested: seq<Item>, payload: Payload, batch: seq<Item>)
    requires Collected(facts, targets, ingested) && payload == Facts(batch)
    ensures Collected(facts + payload.assets + payload.relations + payload.exposures.Keys,
                      targets + payload.targets, ingested + batch)
  {
    FactsAppend(ingested, batch);
  }

  /** The first `n` batches build payloads within the limit. */
  ghost predicate BatchesOk(kind: Kind, batches: seq<seq<Item>>, n: nat)
    requires n <= |batches|
  {
    n == 0 || (BatchesOk(kind, batches, n - 1) && PayloadOk(kind, batches[n - 1]))
  }

  /** After `done` batches of a page that followed the results `base`. */
  ghost predicate Ingesting(kind: Kind, batches: seq<seq<Item>>, done: nat, base: seq<Item>,
                            facts: set<Key>, targets: set<Key>, ingested: seq<Item>)
  {
    && done <= |batches| && BatchesOk(kind, batches, done)
    && ingested == base + Concat(batches[..done]) && Collected(facts, targets, ingested)
  }

  lemma IngestStep(kind: Kind, batches: seq<seq<Item>>, done: nat, base: seq<Item>,
                   facts: set<Key>, targets: set<Key>, ingested: seq<Item>, payload: Payload)
    requires done < |batches|
    ensures Ingesting(kind, batches, done, base, facts, targets, ingested)
            && PayloadOk(kind, batches[done]) && payload == Facts(batches[done]) ==>
              Ingesting(kind, batches, done + 1, base,
                        facts + payload.assets + payload.relations + payload.exposures.Keys,
                        targets + payload.targets, ingested + batches[done])
  {
    if Collected(facts, targets, ingested) && payload == Facts(batches[done]) {
      CollectedStep(facts, targets, ingested, payload, batches[done]);
    }
    ConcatStep(base, batches, done);
  }

  /** The batches, by number of their page, whose ingest fails. */
  type Refusals = map<nat, set<nat>>

  function RefusedOn(refused: Refusals, number: nat): set<nat> {
    if number in refused then refused[number] else {}
  }

  predicate NoneRefused(n: nat, refused: set<nat>) {
    forall k: nat | k < n :: k !in refused
  }

  lemma NoneRefusedStep(n: nat, refused: set<nat>)
    requires NoneRefused(n, refused) && n !in refused
    ensures NoneRefused(n + 1, refused)
  {}

  /** Every batch of the page's split is ingested without an error. */
  ghost predicate Accepted(kind: Kind, items: seq<Item>, refused: set<nat>) {
    exists batches :: SplitOf(kind, items, batches) && NoneRefused(|batches|, refused)
  }

  /** The ingest of some batch of the page's split fails. */
  ghost predicate Rejected(kind: Kind, items: seq<Item>, refused: set<nat>) {
    exists batches :: SplitOf(kind, items, batches) && !NoneRefused(|batches|, refused)
  }

  /** The loop over a page's batches; `done` of them were built and ingested. */
  method IngestBatches(kind: Kind, batches: seq<seq<Item>>, refused: set<nat>,
                       facts0: set<Key>, targets0: set<Key>, ghost base: seq<Item>)
    returns (done: nat, facts: set<Key>, targets: set<Key>, ghost ingested: seq<Item>)
    requires Collected(facts0, targets0, base)
    ensures Ingesting(kind, batches, done, base, facts, targets, ingested)
    ensures done < |batches| ==> !PayloadOk(kind, batches[done]) || done in refused
    ensures NoneRefused(done, refused)
  {
    done, facts, targets, ingested := 0, facts0, targets0, base;
    assert base + Concat(batches[..0]) == base && Ingesting(kind, batches, 0, base, facts, targets, ingested);
    hide PayloadOk, Collected, BatchesOk, Facts, Ingesting, NoneRefused;
    while done < |batches|
      invariant Ingesting(kind, batches, done, base, facts, targets, ingested)
      invariant NoneRefused(done, refused)
    {
      var payload := BuildActiveResultPayload(kind, batches[done]);
      if payload == None || done in refused { return; }
      IngestStep(kind, batches, done, base, facts, targets, ingested, payload.value);
      facts := facts + payload.value.assets + payload.value.relations + payload.value.exposures.Keys;
      targets := targets + payload.value.targets;
      ingested := ingested + batches[done];
      NoneRefusedStep(done, refused);
      done := done + 1;
    }
  }

  lemma {:induction false} BatchesBuild(kind: Kind, batches: seq<seq<Item>>, n: nat)
    requires n <= |batches| && BatchesOk(kind, batches, n)
    ensures AllBuildable(kind, Concat(batches[..n]))
    decreases n
  {
    hide Buildable, Facts, Size;
    if n != 0 {
      BatchesBuild(kind, batches, n - 1);
      ConcatStep([], batches, n - 1);
      BuildableAppend(kind, Concat(batches[..n - 1]), batches[n - 1]);
    }
  }

  lemma BuildableAppend(kind: Kind, a: seq<Item>, b: seq<Item>)
    requires AllBuildable(kind, a) && AllBuildable(kind, b)
    ensures AllBuildable(kind, a + b)
  {}

  /** The body of the page loop after the header checks: split, build, ingest, collect keys. */
  method IngestPage(kind: Kind, items: seq<Item>, refused: set<nat>,
                    facts0: set<Key>, targets0: set<Key>, ghost ingested0: seq<Item>)
    returns (ok: bool, facts: set<Key>, targets: set<Key>, ghost ingested: seq<Item>)
    requires Collected(facts0, targets0, ingested0)
    ensures Collected(facts, targets, ingested) && ingested <= ingested0 + items
    ensures ok ==> ingested == ingested0 + items && ItemsOk(kind, items) && Accepted(kind, items, refused)
    ensures !ok ==> !ItemsOk(kind, items) || Rejected(kind, items, refused)
  {
    ok, facts, targets, ingested := false, facts0, targets0, ingested0;
    var split := SplitActiveResultPage(kind, items);
    if split == None { return; }
    var done;
    done, facts, targets, ingested :=
      IngestBatches(kind, split.value, refused, facts0, targets0, ingested0);
    ok := done == |split.value|;
    ConcatPrefix(split.value, done);
    if ok {
      assert split.value[..done] == split.value;
      BatchesBuild(kind, split.value, done);
    } else if ItemsOk(kind, items) {
      BatchOk(kind, items, split.value, done);
      assert !NoneRefused(|split.value|, refused);
    }
  }

  /** The first `n` pages are all in order. */
  ghost predicate PagesOk(kind: Kind, answers: Answers, n: nat) {
    n == 0 || (PagesOk(kind, answers, n - 1) && PageOk(kind, answers, n))
  }

  /** The summary of an unsplit list of results: distinct facts, distinct targets, the header. */
  ghost function SummaryOf(items: seq<Item>, header: Fetched): Summary {
    Summary(|FactKeys(Facts(items))|, |Facts(items).targets|, header.total, header.finished)
  }

  /** The header checks of one page: the first page fixes what the later ones must repeat. */
  method CheckHeader(ghost answers: Answers, number: nat, page: Option<Fetched>, total0: int, finished0: int)
    returns (ok: bool, total: int, finished: int)
    requires number > 0 && page == Fetch(answers, number)
    requires number > 1 ==> Started(answers, number - 1, total0, finished0)
    ensures ok <==> HeaderAgrees(answers, number)
    ensures ok ==> total == Fetch(answers, 1).value.total && finished == Fetch(answers, 1).value.finished
  {
    ok, total, finished := false, total0, finished0;
    if !HeaderOk(page) { return; }
    if number == 1 {
      total, finished := page.value.total, page.value.finished;
    } else if page.value.total != total || page.value.finished != finished {
      return;
    }
    ok := true;
  }

  /** The ingests of the first `n` pages all succeed. */
  ghost predicate AllAccepted(kind: Kind, answers: Answers, refused: Refusals, n: nat) {
    n == 0 || (AllAccepted(kind, answers, refused, n - 1)
               && Fetch(answers, n).Some? && Accepted(kind, Fetch(answers, n).value.items, RefusedOn(refused, n)))
  }

  /** Why a pull gives up: a page it had to fetch is out of order, or an ingest of it failed. */
  ghost predicate Refused(kind: Kind, answers: Answers, refused: Refusals, number: nat) {
    && (number == 1 || (number > 1 && HeaderOk(Fetch(answers, 1)) && (number - 1) * PAGE_SIZE < Fetch(answers, 1).value.total))
    && (PageOk(kind, answers, number) ==> Rejected(kind, Fetch(answers, number).value.items, RefusedOn(refused, number)))
  }

  /** How a pull may end: with the summary of all the pages, unsplit, or refused at page `last`. */
  ghost predicate Outcome(kind: Kind, answers: Answers, refused: Refusals, r: Option<Summary>, last: nat) {
    last <= MAX_PAGES &&
    match r
    case Some(summary) =>
      && PullOk(kind, answers) && last == Pages(Fetch(answers, 1).value.total)
      && AllAccepted(kind, answers, refused, last)
      && summary == SummaryOf(AllItems(answers, last), Fetch(answers, 1).value)
    case None => Refused(kind, answers, refused, last)
  }

  /** What was ingested: everything the pages up to `last` hold, or only leading results of it. */
  predicate Delivered(answers: Answers, complete: bool, last: nat, ingested: seq<Item>) {
    if complete then ingested == AllItems(answers, last) else ingested <= AllItems(answers, last)
  }

  /** What holds before each further page. */
  ghost predicate Pulling(kind: Kind, answers: Answers, refused: Refusals, done: nat, total: int, finished: int,
                          facts: set<Key>, targets: set<Key>, ingested: seq<Item>)
  {
    && PagesOk(kind, answers, done) && AllAccepted(kind, answers, refused, done)
    && Delivered(answers, true, done, ingested) && Collected(facts, targets, ingested)
    && (done > 0 ==> Started(answers, done, total, finished))
  }

  /** What holds after a further page. */
  ghost predicate Pulled(kind: Kind, answers: Answers, refused: Refusals, number: nat, total: int, finished: int,
                         facts: set<Key>, targets: set<Key>, ingested: seq<Item>)
  {
    && number > 0 && PagesOk(kind, answers, number) && AllAccepted(kind, answers, refused, number)
    && Delivered(answers, true, number, ingested) && Collected(facts, targets, ingested)
    && Started(answers, number - 1, total, finished)
  }

  /** One turn of the page loop. */
  method PullPage(kind: Kind, answers: Answers, number: nat, refused: Refusals,
                  total0: int, finished0: int, facts0: set<Key>, targets0: set<Key>, ghost ingested0: seq<Item>)
    returns (ok: bool, total: int, finished: int, facts: set<Key>, targets: set<Key>, ghost ingested: seq<Item>)
    requires 0 < number <= MAX_PAGES
    requires Pulling(kind, answers, refused, number - 1, total0, finished0, facts0, targets0, ingested0)
    ensures !ok ==> Outcome(kind, answers, refused, None, number) && Delivered(answers, false, number, ingested)
    ensures ok ==> Pulled(kind, answers, refused, number, total, finished, facts, targets, ingested)
  {
    facts, targets, ingested := facts0, targets0, ingested0;
    var page := Fetch(answers, number);
    AllItemsStep(answers, number);
    ok, total, finished := CheckHeader(answers, number, page, total0, finished0);
    if !ok { return; }
    ok, facts, targets, ingested := IngestPage(kind, page.value.items, RefusedOn(refused, number), facts0, targets0, ingested0);
  }

  /** pullActiveRunResults: `refused` names the batches whose ingest fails, `ingested`
      lists the results of the batches ingested and `last` is the last page it looked at. */
  method PullActiveRunResults(kind: Kind, answers: Answers, refused: Refusals)
    returns (r: Option<Summary>, last: nat, ghost ingested: seq<Item>)
    ensures Outcome(kind, answers, refused, r, last)
    ensures Delivered(answers, r.Some?, last, ingested)
  {
    hide Outcome, Delivered, Pulling, Pulled;
    r, last, ingested := None, 0, [];
    var facts, targets: set<Key> := {}, {};
    var total, finished := 0, 0;
    PullStart(kind, answers, refused, total, finished);
    for number := 1 to MAX_PAGES + 1
      invariant Pulling(kind, answers, refused, number - 1, total, finished, facts, targets, ingested)
      invariant number <= MAX_PAGES
    {
      last := number;
      var ok;
      ok, total, finished, facts, targets, ingested :=
        PullPage(kind, answers, number, refused, total, finished, facts, targets, ingested);
      if !ok { return; }
      if number * PAGE_SIZE >= total {
        r := Some(Summary(|facts|, |targets|, total, finished));
        LastPage(kind, answers, refused, number, total, finished, facts, targets, ingested);
        return;
      }
      PullOn(kind, answers, refused, number, total, finished, facts, targets, ingested);
    }
  }

  lemma PullStart(kind: Kind, answers: Answers, refused: Refusals, total: int, finished: int)
    ensures Pulling(kind, answers, refused, 0, total, finished, {}, {}, [])
  {}

  lemma PullOn(kind: Kind, answers: Answers, refused: Refusals, number: nat, total: int, finished: int,
               facts: set<Key>, targets: set<Key>, ingested: seq<Item>)
    ensures Pulled(kind, answers, refused, number, total, finished, facts, targets, ingested)
            && number * PAGE_SIZE < total ==>
              Pulling(kind, answers, refused, number, total, finished, facts, targets, ingested) && number < MAX_PAGES
  {}

  /** The loop stops exactly at the page that completes the announced total. */
  lemma LastPage(kind: Kind, answers: Answers, refused: Refusals, number: nat, total: int, finished: int,
                 facts: set<Key>, targets: set<Key>, ingested: seq<Item>)
    ensures Pulled(kind, answers, refused, number, total, finished, facts, targets, ingested)
            && total <= number * PAGE_SIZE && number <= MAX_PAGES ==>
              && Outcome(kind, answers, refused, Some(Summary(|facts|, |targets|, total, finished)), number)
              && Delivered(answers, true, number, ingested)
  {}

  /** A pull is refused only for cause: if all pages are in order, an ingest of the page it stopped at
      failed. */
  lemma RefusedForCause(kind: Kind, answers: Answers, refused: Refusals, number: nat)
    requires Refused(kind, answers, refused, number)
    ensures !PullOk(kind, answers)
            || (Fetch(answers, number).Some? && Rejected(kind, Fetch(answers, number).value.items, RefusedOn(refused, number)))
  {
    if PullOk(kind, answers) { PageInOrder(kind, answers, Pages(Fetch(answers, 1).value.total), number); }
  }

  lemma AllItemsStep(answers: Answers, number: nat)
    requires number > 0
    ensures AllItems(answers, number - 1) <= AllItems(answers, number)
    ensures Fetch(answers, number).Some? ==>
              AllItems(answers, number) == AllItems(answers, number - 1) + Fetch(answers, number).value.items
  {}

  /** The header the later pages are held to, and that more of them are due after `done` pages. */
  ghost predicate Started(answers: Answers, done: nat, total: int, finished: int) {
    && HeaderOk(Fetch(answers, 1))
    && total == Fetch(answers, 1).value.total && finished == Fetch(answers, 1).value.finished
    && done * PAGE_SIZE < total
  }

  lemma {:induction false} PageInOrder(kind: Kind, answers: Answers, n: nat, number: nat)
    requires PagesOk(kind, answers, n) && 1 <= number <= n
    ensures PageOk(kind, answers, number)
    decreases n
  {
    if number < n { PageInOrder(kind, answers, n - 1, number); }
  }
}

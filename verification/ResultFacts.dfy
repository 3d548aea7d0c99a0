/** Which facts a list of results stands for, told result by result and key by key. */
module ResultFacts {
  import opened Options
  import opened ResultPaging

  // ---------------------------------------------------- what a result makes

  predicate MakesAsset(item: Item, key: Key) {
    match (item, key)
    case (PortItem(host, _), HostAsset(h)) => host == Some(h)
    case (WebItem(site, _, _, _), HostAsset(h)) => site.Some? && site.value.host == h
    case (WebItem(site, _, _, _), WebAsset(u)) => site.Some? && site.value.url == u
    case _ => false
  }

  predicate MakesRelation(item: Item, key: Key) {
    match (item, key)
    case (WebItem(site, _, _, _), Contains(h, u)) => site.Some? && site.value.host == h && site.value.url == u
    case _ => false
  }

  predicate MakesExposure(item: Item, key: Key) {
    match (item, key)
    case (PortItem(host, parts), PortKey(h, n)) => host == Some(h) && 1 <= n <= 65535 && Some(n) in parts
    case (WebItem(site, _, _, _), WebKey(h, u)) => site.Some? && site.value.host == h && site.value.url == u
    case (WebItem(site, fingerprints, _, _), ServiceKey(h, protocol, port, name)) =>
      && site.Some? && site.value.host == h && site.value.protocol == protocol && site.value.port == port
      && exists f | f in fingerprints :: f.name == Some(name)
    case _ => false
  }

  predicate MakesTarget(item: Item, key: Key) {
    match (item, key)
    case (PortItem(host, _), HostAsset(h)) => host == Some(h)
    case (WebItem(site, _, target, _), WebAsset(u)) => site.Some? && target == u
    case _ => false
  }

  /** What the exposure made from the result says. */
  ghost predicate Says(item: Item, key: Key, exposure: Exposure) {
    match (item, key)
    case (PortItem(_, _), PortKey(_, _)) => exposure == OpenPort
    case (WebItem(_, fingerprints, _, details), WebKey(_, _)) =>
      && exposure.Page? && exposure.details == details
      && IsCode(fingerprints, exposure.code) && IsTitle(fingerprints, exposure.title)
      && forall name :: name in exposure.names <==> exists f | f in fingerprints :: f.name == Some(name)
    case (WebItem(site, _, _, _), ServiceKey(_, _, _, _)) => site.Some? && exposure == ServiceOn(site.value.url)
    case _ => false
  }

  /** The status code of a page: the first one a fingerprint reports, none if none does. */
  ghost predicate IsCode(fingerprints: seq<Fingerprint>, code: Code) {
    if code == Absent then forall f | f in fingerprints :: f.status == Absent
    else exists i | 0 <= i < |fingerprints| ::
           fingerprints[i].status == code && forall j | 0 <= j < i :: fingerprints[j].status == Absent
  }

  /** Its title: the first one a fingerprint reports, none if none does. */
  ghost predicate IsTitle(fingerprints: seq<Fingerprint>, title: Option<nat>) {
    if title == None then forall f | f in fingerprints :: f.title == None
    else exists i | 0 <= i < |fingerprints| ::
           fingerprints[i].title == title && forall j | 0 <= j < i :: fingerprints[j].title == None
  }

  lemma {:induction false} CodeAndTitle(fingerprints: seq<Fingerprint>)
    ensures IsCode(fingerprints, CodeOf(fingerprints)) && IsTitle(fingerprints, TitleOf(fingerprints))
    decreases |fingerprints|
  {
    if fingerprints != [] {
      var n := |fingerprints| - 1;
      var before, last := fingerprints[..n], fingerprints[n];
      CodeAndTitle(before);
      assert fingerprints == before + [last];
      CodeGrows(before, last);
      TitleGrows(before, last);
    }
  }

  lemma CodeGrows(before: seq<Fingerprint>, last: Fingerprint)
    requires IsCode(before, CodeOf(before))
    ensures IsCode(before + [last], CodeOf(before + [last]))
  {
    var all := before + [last];
    assert all[..|before|] == before;
    if CodeOf(before) != Absent {
      var i :| 0 <= i < |before| && before[i].status == CodeOf(before) && forall j | 0 <= j < i :: before[j].status == Absent;
      assert all[i] == before[i] && forall j | 0 <= j < i :: all[j] == before[j];
    } else if last.status != Absent {
      assert all[|before|] == last && forall j | 0 <= j < |before| :: all[j] in before;
    }
  }

  lemma TitleGrows(before: seq<Fingerprint>, last: Fingerprint)
    requires IsTitle(before, TitleOf(before))
    ensures IsTitle(before + [last], TitleOf(before + [last]))
  {
    var all := before + [last];
    assert all[..|before|] == before;
    if TitleOf(before) != None {
      var i :| 0 <= i < |before| && before[i].title == TitleOf(before) && forall j | 0 <= j < i :: before[j].title == None;
      assert all[i] == before[i] && forall j | 0 <= j < i :: all[j] == before[j];
    } else if last.title != None {
      assert all[|before|] == last && forall j | 0 <= j < |before| :: all[j] in before;
    }
  }

  lemma OneResult(item: Item, key: Key)
    ensures var p := FactsOf(item);
            && (key in p.assets <==> MakesAsset(item, key)) && (key in p.relations <==> MakesRelation(item, key))
            && (key in p.exposures <==> MakesExposure(item, key)) && (key in p.targets <==> MakesTarget(item, key))
            && (key in p.exposures ==> Says(item, key, p.exposures[key]))
  {
    match item
    case PortItem(host, parts) =>
      if key.PortKey? { PortInSet(parts, key.number); }
    case WebItem(site, fingerprints, target, details) => CodeAndTitle(fingerprints);
  }

  lemma PortInSet(parts: seq<Option<int>>, n: nat)
    ensures n in PortSet(parts) <==> 1 <= n <= 65535 && Some(n) in parts
  {
    if 1 <= n <= 65535 && Some(n as int) in parts { assert PortPart(Some(n as int)); }
  }

  // --------------------------------------------------------- lists of results

  predicate Makes(items: seq<Item>, key: Key, i: nat) {
    i < |items| && MakesExposure(items[i], key)
  }

  /** The last result that makes the exposure. */
  predicate LastMaker(items: seq<Item>, key: Key, i: nat) {
    Makes(items, key, i) && forall j: nat | i < j < |items| :: !Makes(items, key, j)
  }

  /** The facts of a list of results are exactly those its results make: hosts and sites as assets,
      their containment, open ports, pages and services as exposures; the targets are those probed. */
  lemma {:induction false} FactsAreMade(items: seq<Item>, key: Key)
    ensures var p := Facts(items);
            && (key in p.assets <==> exists i | 0 <= i < |items| :: MakesAsset(items[i], key))
            && (key in p.relations <==> exists i | 0 <= i < |items| :: MakesRelation(items[i], key))
            && (key in p.exposures <==> exists i | 0 <= i < |items| :: MakesExposure(items[i], key))
            && (key in p.targets <==> exists i | 0 <= i < |items| :: MakesTarget(items[i], key))
    decreases |items|
  {
    if items != [] {
      var n := |items| - 1;
      var before, last := items[..n], items[n];
      FactsAreMade(before, key);
      OneResult(last, key);
      assert items == before + [last];
      hide FactsOf, MakesAsset, MakesRelation, MakesExposure, MakesTarget;
      ExistsGrows(before, last, key);
    }
  }

  lemma ExistsGrows(before: seq<Item>, last: Item, key: Key)
    ensures var items := before + [last];
      && ((exists i | 0 <= i < |items| :: MakesAsset(items[i], key))
          <==> (exists i | 0 <= i < |before| :: MakesAsset(before[i], key)) || MakesAsset(last, key))
      && ((exists i | 0 <= i < |items| :: MakesRelation(items[i], key))
          <==> (exists i | 0 <= i < |before| :: MakesRelation(before[i], key)) || MakesRelation(last, key))
      && ((exists i | 0 <= i < |items| :: MakesExposure(items[i], key))
          <==> (exists i | 0 <= i < |before| :: MakesExposure(before[i], key)) || MakesExposure(last, key))
      && ((exists i | 0 <= i < |items| :: MakesTarget(items[i], key))
          <==> (exists i | 0 <= i < |before| :: MakesTarget(before[i], key)) || MakesTarget(last, key))
  {
    hide MakesAsset, MakesRelation, MakesExposure, MakesTarget;
    var items := before + [last];
    assert items[|before|] == last && forall i | 0 <= i < |before| :: items[i] == before[i];
  }

  /** Each exposure says what the last result that makes it says: its page with the first status code
      and title reported and all fingerprint names, or the site its service runs on. */
  lemma {:induction false} LastResultSpeaks(items: seq<Item>, key: Key) returns (i: nat)
    requires key in Facts(items).exposures
    ensures LastMaker(items, key, i) && Says(items[i], key, Facts(items).exposures[key])
    decreases |items|
  {
    assert items != [];
    hide FactsOf, MakesExposure, Says, Facts, LastMaker;
    var n := |items| - 1;
    var before, last := items[..n], items[n];
    OneResult(last, key);
    LastFacts(items);
    if key in FactsOf(last).exposures {
      i := n;
      LastMakes(items, key);
    } else {
      i := LastResultSpeaks(before, key);
      MakerStays(items, key, i);
    }
  }

  lemma LastMakes(items: seq<Item>, key: Key)
    requires items != [] && MakesExposure(items[|items|-1], key)
    ensures LastMaker(items, key, |items| - 1)
  {}

  lemma MakerStays(items: seq<Item>, key: Key, i: nat)
    requires items != [] && LastMaker(items[..|items|-1], key, i) && !MakesExposure(items[|items|-1], key)
    ensures LastMaker(items, key, i) && items[i] == items[..|items|-1][i]
  {
    hide MakesExposure;
    var before := items[..|items|-1];
    forall j: nat | i < j < |items| ensures !Makes(items, key, j) {
      if j < |before| { assert !Makes(before, key, j) && before[j] == items[j]; }
    }
  }

  // ------------------------------------------------------------------- costs

  lemma {:induction false} OpenPortsExact(host: nat, ports: set<nat>)
    ensures |OpenPorts(host, ports)| == |ports|
    decreases |ports|
  {
    if ports == {} {
      assert OpenPorts(host, ports) == map[];
    } else {
      var port :| port in ports;
      var rest := OpenPorts(host, ports - {port});
      OpenPortsExact(host, ports - {port});
      assert PortKey(host, port) !in rest;
      assert OpenPorts(host, ports) == rest[PortKey(host, port) := OpenPort];
    }
  }

  lemma {:induction false} ServicesExact(s: Site, names: set<nat>)
    ensures |Services(s, names)| == |names|
    decreases |names|
  {
    if names == {} {
      assert Services(s, names) == map[];
    } else {
      var name :| name in names;
      var rest := Services(s, names - {name});
      ServicesExact(s, names - {name});
      var key := ServiceKey(s.host, s.protocol, s.port, name);
      assert key !in rest;
      assert Services(s, names) == rest[key := ServiceOn(s.url)];
    }
  }

  /** The charge is tight: a port result makes exactly as many facts as it is charged, a web result as
      many less as its fingerprints repeat or lack a name. */
  lemma ChargeIsTight(item: Item)
    requires Cost(item).Some? && (item.PortItem? ==> item.host.Some?) && (item.WebItem? ==> item.site.Some?)
    ensures item.PortItem? ==> Size(FactsOf(item)) == Cost(item).value
    ensures item.WebItem? ==>
              Size(FactsOf(item)) == Cost(item).value - (|item.fingerprints| - |Names(item.fingerprints)|)
  {
    match item
    case PortItem(host, parts) => OpenPortsExact(host.value, PortSet(parts));
    case WebItem(site, fingerprints, target, details) =>
      var s, names := site.value, Names(fingerprints);
      var page := Page(CodeOf(fingerprints), TitleOf(fingerprints), names, details);
      var services := Services(s, names);
      ServicesExact(s, names);
      var key := WebKey(s.host, s.url);
      assert key !in services;
      assert map[key := page] + services == services[key := page];
      assert {HostAsset(s.host), WebAsset(s.url)} == {HostAsset(s.host)} + {WebAsset(s.url)};
      assert |{HostAsset(s.host), WebAsset(s.url)}| == 2;
  }

  /** Which results a page may hold: of the task's kind; a port result with at most 1000 distinct real
      ports and nothing else in its list; a web result with at most 1796 fingerprints. To build it
      must also name a host or site, and its fingerprints report no bad code and no two codes. */
  lemma ResultMeans(kind: Kind, item: Item)
    ensures Splittable(kind, item) <==>
              match item
              case PortItem(_, parts) =>
                kind == PortProbe && |PortSet(parts)| <= 1000
                && forall part | part in parts :: part.Some? && 1 <= part.value <= 65535
              case WebItem(_, fingerprints, _, _) => kind == WebProbe && |fingerprints| <= 1796
    ensures Splittable(kind, item) ==>
              (Buildable(kind, item) <==>
                 match item
                 case PortItem(host, _) => host.Some?
                 case WebItem(site, fingerprints, _, _) =>
                   site.Some? && forall f | f in fingerprints ::
                     f.status != Malformed && (f.status == Absent || f.status == CodeOf(fingerprints)))
  {
    if item.WebItem? { AgreedCode(item.fingerprints); }
  }

  lemma {:induction false} AgreedCode(fingerprints: seq<Fingerprint>)
    ensures CodesAgree(fingerprints) <==>
              forall f | f in fingerprints :: f.status != Malformed && (f.status == Absent || f.status == CodeOf(fingerprints))
  {
    CodeAndTitle(fingerprints);
    var code := CodeOf(fingerprints);
    if code != Absent {
      var i :| 0 <= i < |fingerprints| && fingerprints[i].status == code;
      assert fingerprints[i] in fingerprints;
    }
  }

  // ------------------------------------------------------------------- pages

  /** The page is there, echoes the request, repeats the announced totals, and its results build. */
  ghost predicate GoodPage(kind: Kind, answers: Answers, number: nat, total: int, finished: int) {
    && 1 <= number <= |answers| && answers[number - 1].Some?
    && var page := answers[number - 1].value;
       (page.echoes && page.total == total && page.finished == finished && ItemsOk(kind, page.items))
  }

  /** The engine announces 1 to 1000 targets, no more of them finished, and each of the pages of 50 up
      to that total is good. */
  ghost predicate InOrder(kind: Kind, answers: Answers, total: int, finished: int) {
    && 1 <= total <= 1000 && 0 <= finished <= total
    && forall number: nat | 1 <= number && (number - 1) * 50 < total :: GoodPage(kind, answers, number, total, finished)
  }

  /** A pull is in order iff its pages are, for one announced total. */
  lemma PullMeans(kind: Kind, answers: Answers)
    ensures PullOk(kind, answers) <==> exists total: int, finished: int :: InOrder(kind, answers, total, finished)
  {
    hide ItemsOk;
    if PullOk(kind, answers) {
      var first := Fetch(answers, 1).value;
      forall number: nat | 1 <= number && (number - 1) * 50 < first.total
        ensures GoodPage(kind, answers, number, first.total, first.finished)
      {
        PageInOrder(kind, answers, Pages(first.total), number);
      }
      assert InOrder(kind, answers, first.total, first.finished);
    }
    forall total: int, finished: int | InOrder(kind, answers, total, finished) ensures PullOk(kind, answers) {
      assert GoodPage(kind, answers, 1, total, finished);
      GoodPagesOk(kind, answers, total, finished, Pages(total));
    }
  }

  lemma {:induction false} GoodPagesOk(kind: Kind, answers: Answers, total: int, finished: int, n: nat)
    requires InOrder(kind, answers, total, finished) && GoodPage(kind, answers, 1, total, finished)
    requires (n - 1) * 50 < total
    ensures PagesOk(kind, answers, n)
    decreases n
  {
    hide ItemsOk;
    if n != 0 {
      GoodPagesOk(kind, answers, total, finished, n - 1);
      assert GoodPage(kind, answers, n, total, finished);
    }
  }
}

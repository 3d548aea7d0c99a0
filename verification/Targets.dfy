/** Target texts as parsed records: DNS and IPv4 hosts, URLs, networks, and how they normalise. */
module Targets {
  import opened Options

  /** One dot-separated piece of a host, lower-cased: a canonical decimal numeral, digits that are
      not one, a well-formed label, the wildcard, or anything a DNS label may not be. */
  datatype Label = Num(n: nat) | Digits(d: nat) | Word(text: string) | Star | Bad(b: nat)

  type Host = seq<Label>

  datatype Scheme = Http | Https | OtherScheme

  /** A port as written: leading zeros survive normalisation. */
  datatype PortText = PortText(number: nat, zeros: nat)

  /** An IPv4 network, by its address text and the addresses it contains. */
  datatype Prefix = Prefix(address: Host, low: nat, high: nat)

  /** A target text, blanks and a final dot removed; `extra` marks a user, path, query or fragment. */
  datatype Text =
    | HostText(host: Host)
    | CidrText(prefix: Prefix, reserved: bool)
    | UrlText(scheme: Scheme, site: Host, port: Option<PortText>, extra: bool)
    | EndpointText(endpoint: Host, at: PortText)
    | CompanyText(name: nat)
    | Junk(id: nat)

  datatype Kind = Domain | Ip | Cidr | Url | Company

  /** parsedTarget; an empty domain and port 0 are the zero values. */
  datatype Parsed = Parsed(kind: Kind, value: Text, scheme: Option<Scheme>, domain: Host,
                           company: Option<nat>, ip: Option<Host>, port: nat)

  predicate Ipv4(h: Host) {
    |h| == 4 && forall i | 0 <= i < 4 :: h[i].Num? && h[i].n < 256
  }

  function Address(h: Host): nat
    requires Ipv4(h)
  {
    ((h[0].n * 256 + h[1].n) * 256 + h[2].n) * 256 + h[3].n
  }

  /** The reserved IPv4 ranges, by first and last address. */
  const RESERVED: seq<(nat, nat)> := [
    (0x00000000, 0x00FFFFFF), (0x0A000000, 0x0AFFFFFF), (0x64400000, 0x647FFFFF), (0x7F000000, 0x7FFFFFFF),
    (0xA9FE0000, 0xA9FEFFFF), (0xAC100000, 0xAC1FFFFF), (0xC0000000, 0xC00000FF), (0xC0A80000, 0xC0A8FFFF),
    (0xC6120000, 0xC613FFFF), (0xC0000200, 0xC00002FF), (0xC6336400, 0xC63364FF), (0xCB007100, 0xCB0071FF),
    (0xE0000000, 0xEFFFFFFF), (0xF0000000, 0xFFFFFFFF)
  ]

  predicate DangerousIp(h: Host)
    requires Ipv4(h)
  {
    exists i | 0 <= i < |RESERVED| :: RESERVED[i].0 <= Address(h) <= RESERVED[i].1
  }

  const SPECIAL_USE: set<string> :=
    {"localhost", "local", "localdomain", "internal", "alt", "invalid", "test", "example"}

  predicate DangerousName(h: Host) {
    || h == [Word("localhost")]
    || (|h| > 1 && h[|h|-1].Word? && h[|h|-1].text in SPECIAL_USE)
    || (|h| > 2 && h[|h|-1] == Word("arpa") && h[|h|-2] == Word("home"))
  }

  /** normalizeDomain accepts the host: a safe, fully qualified name whose last label is not digits. */
  predicate ValidDomain(h: Host) {
    && |h| >= 2 && !DangerousName(h) && h[|h|-1].Word?
    && forall i | 0 <= i < |h| :: h[i].Num? || h[i].Digits? || h[i].Word?
  }

  function NormalizeDomain(t: Text): Option<Host> {
    if t.HostText? && ValidDomain(t.host) then Some(t.host) else None
  }

  function ParseUrl(t: Text): Option<Parsed> {
    if !t.UrlText? || t.scheme == OtherScheme || t.site == [] then None
    else if t.port.Some? && !(1 <= t.port.value.number <= 65535) then None
    else
      var port := if t.port.Some? then t.port.value.number else 0;
      var value := UrlText(t.scheme, t.site, t.port, false);
      if Ipv4(t.site) then Some(Parsed(Url, value, Some(t.scheme), t.site, None, Some(t.site), port))
      else if ValidDomain(t.site) then Some(Parsed(Url, value, Some(t.scheme), t.site, None, None, port))
      else None
  }

  predicate DangerousHost(p: Parsed)
    requires p.ip.Some? ==> Ipv4(p.ip.value)
  {
    if p.ip.Some? then DangerousIp(p.ip.value) else p.domain == [] || DangerousName(p.domain)
  }

  function ParseTarget(t: Text): Option<Parsed> {
    match t
    case UrlText(_, _, _, _) =>
      var parsed := ParseUrl(t);
      if parsed == None || DangerousHost(parsed.value) then None else parsed
    case HostText(h) =>
      if Ipv4(h) then
        if DangerousIp(h) then None else Some(Parsed(Ip, t, None, [], None, Some(h), 0))
      else if ValidDomain(h) then Some(Parsed(Domain, t, None, h, None, None, 0))
      else None
    case CidrText(prefix, reserved) =>
      if reserved then None else Some(Parsed(Cidr, t, None, [], None, Some(prefix.address), 0))
    case _ => None
  }

  function ParseTypedTarget(kind: Kind, t: Text): Option<Parsed> {
    if kind != Company then ParseTarget(t)
    else if t.CompanyText? then Some(Parsed(Company, t, None, [], Some(t.name), None, 0))
    else None
  }

  function NormalizeTargetValue(kind: Kind, t: Text): Option<Text> {
    match kind
    case Domain => if NormalizeDomain(t).Some? then Some(t) else None
    case Company => if t.CompanyText? then Some(t) else None
    case Ip => if t.HostText? && Ipv4(t.host) && !DangerousIp(t.host) then Some(t) else None
    case Cidr => if t.CidrText? && !t.reserved then Some(t) else None
    case Url =>
      var parsed := ParseUrl(t);
      if parsed == None || DangerousHost(parsed.value) then None else Some(parsed.value.value)
  }

  /** `h` is a proper subdomain of `root`. */
  predicate Under(h: Host, root: Host) {
    |h| > |root| && h[|h| - |root|..] == root
  }

  /** No host is both a DNS name and an address. */
  lemma NameOrAddress(h: Host)
    ensures !ValidDomain(h) || !Ipv4(h)
  {
    if Ipv4(h) { assert h[3].Num?; }
  }

  /** What a normalised value parses to, and that it normalises to itself. */
  lemma NormalizedParses(kind: Kind, t: Text)
    requires NormalizeTargetValue(kind, t).Some?
    ensures var value := NormalizeTargetValue(kind, t).value;
            && NormalizeTargetValue(kind, value) == Some(value)
            && ParseTypedTarget(kind, value).Some? && ParseTypedTarget(kind, value).value.kind == kind
            && ParseTypedTarget(kind, value).value.value == value
  {
    if kind == Domain { NameOrAddress(t.host); }
  }

  /** A text of one kind parses under that kind exactly when it normalises under it. */
  lemma ParsesIffNormalizes(kind: Kind, t: Text)
    ensures NormalizeTargetValue(kind, t).Some?
            <==> ParseTypedTarget(kind, t).Some? && ParseTypedTarget(kind, t).value.kind == kind
  {
    if t.HostText? { NameOrAddress(t.host); }
  }
}

/** The guarded network request: address ranges, URL checks and the redirect recursion, against
    an arbitrary resolver and an arbitrary server. */
module Network {
  import opened Text
  import opened Readers
  import Canonical

  // ---- Addresses ----------------------------------------------------------------------

  newtype word = x: int | 0 <= x < 65536

  datatype Ip =
    | V4(a: byte, b: byte, c: byte, d: byte)
    | V6(s0: word, s1: word, s2: word, s3: word, s4: word, s5: word, s6: word, s7: word)

  datatype SocketAddr = SocketAddr(ip: Ip, port: nat)

  predicate IsBlockedV4(ip: Ip)
    requires ip.V4?
  {
    || ip.a == 10
    || (ip.a == 172 && 16 <= ip.b <= 31)
    || (ip.a == 192 && ip.b == 168)
    || ip.a == 127
    || (ip.a == 169 && ip.b == 254)
    || ip.a == 0
    || 224 <= ip.a <= 239
    || ip == V4(255, 255, 255, 255)
    || (ip.a == 100 && 64 <= ip.b <= 127)
  }

  function Low(w: word): (b: byte) { (w as int % 256) as byte }

  function High(w: word): (b: byte) { (w as int / 256) as byte }

  function Pack(high: byte, low: byte): (w: word) { (high as int * 256 + low as int) as word }

  /** The IPv4 address in the last two segments. */
  function Embedded(ip: Ip): (v4: Ip)
    requires ip.V6?
    ensures v4.V4?
  {
    V4(High(ip.s6), Low(ip.s6), High(ip.s7), Low(ip.s7))
  }

  predicate IsBlockedV6(ip: Ip)
    requires ip.V6?
  {
    || ip == V6(0, 0, 0, 0, 0, 0, 0, 1)
    || ip == V6(0, 0, 0, 0, 0, 0, 0, 0)
    || ip.s0 >= 0xff00
    || ip.s0 == 0xfe80
    || 0xfc00 <= ip.s0 <= 0xfdff
    || (ip.s0 == 0 && ip.s1 == 0 && ip.s2 == 0 && ip.s3 == 0 && ip.s4 == 0 && ip.s5 == 0xffff
        && IsBlockedV4(Embedded(ip)))
  }

  predicate IsBlocked(ip: Ip) { if ip.V4? then IsBlockedV4(ip) else IsBlockedV6(ip) }

  predicate IsLoopback(ip: Ip)
  {
    if ip.V4? then ip.a == 127 else ip == V6(0, 0, 0, 0, 0, 0, 0, 1)
  }

  predicate IsMetadataIp(ip: Ip) { ip == V4(169, 254, 169, 254) }

  /** The 32-bit value of an IPv4 address. */
  function Value(ip: Ip): (n: nat)
    requires ip.V4?
  {
    ((ip.a as nat * 256 + ip.b as nat) * 256 + ip.c as nat) * 256 + ip.d as nat
  }

  /** Membership in the block of `size` addresses from `base`. */
  predicate InBlock(n: nat, base: nat, size: nat) { base <= n < base + size }

  /** The nine blocks of IPv4 addresses that are never contacted. */
  predicate InNineBlocks(n: nat)
  {
    || InBlock(n, 0x0A00_0000, 0x100_0000)  // 10.0.0.0/8
    || InBlock(n, 0xAC10_0000, 0x10_0000)   // 172.16.0.0/12
    || InBlock(n, 0xC0A8_0000, 0x1_0000)    // 192.168.0.0/16
    || InBlock(n, 0x7F00_0000, 0x100_0000)  // 127.0.0.0/8
    || InBlock(n, 0xA9FE_0000, 0x1_0000)    // 169.254.0.0/16
    || InBlock(n, 0x0000_0000, 0x100_0000)  // 0.0.0.0/8
    || InBlock(n, 0xE000_0000, 0x1000_0000) // 224.0.0.0/4
    || InBlock(n, 0xFFFF_FFFF, 1)           // 255.255.255.255/32
    || InBlock(n, 0x6440_0000, 0x40_0000)   // 100.64.0.0/10
  }

  /** The octet patterns are exactly nine address blocks. */
  lemma BlockedIsRanges(ip: Ip)
    requires ip.V4?
    ensures IsBlocked(ip) <==> InNineBlocks(Value(ip))
  {
    var rest := ip.c as nat * 256 + ip.d as nat;
    assert Value(ip) == ip.a as nat * 0x100_0000 + ip.b as nat * 0x1_0000 + rest;
    assert rest < 0x1_0000;
  }

  /** Writing an IPv4 address as an IPv4-mapped IPv6 address does not change the verdict. */
  lemma MappedAgrees(ip: Ip)
    requires ip.V4?
    ensures IsBlocked(V6(0, 0, 0, 0, 0, 0xffff, Pack(ip.a, ip.b), Pack(ip.c, ip.d))) <==> IsBlocked(ip)
  {
    var mapped := V6(0, 0, 0, 0, 0, 0xffff, Pack(ip.a, ip.b), Pack(ip.c, ip.d));
    assert Embedded(mapped) == ip;
  }

  const TWO_112: nat := 0x1_0000_0000_0000_0000_0000_0000_0000

  /** The low 112 bits of an IPv6 address. */
  function Low112(ip: Ip): (n: nat)
    requires ip.V6?
  {
    ip.s1 as nat * 0x1_0000_0000_0000_0000_0000_0000 + ip.s2 as nat * 0x1_0000_0000_0000_0000_0000
    + ip.s3 as nat * 0x1_0000_0000_0000_0000 + ip.s4 as nat * 0x1_0000_0000_0000
    + ip.s5 as nat * 0x1_0000_0000 + ip.s6 as nat * 0x1_0000 + ip.s7 as nat
  }

  /** The 128-bit value of an IPv6 address. */
  function Value128(ip: Ip): (n: nat)
    requires ip.V6?
  {
    ip.s0 as nat * TWO_112 + Low112(ip)
  }

  /** The IPv6 addresses that are never contacted: `::`, `::1`, ff00::/8, fe80::/16, fc00::/7, and the
      IPv4-mapped forms of the nine blocks. */
  predicate InV6Ranges(n: nat)
  {
    || n == 0
    || n == 1
    || InBlock(n, 0xff00 * TWO_112, 0x100 * TWO_112)
    || InBlock(n, 0xfe80 * TWO_112, TWO_112)
    || InBlock(n, 0xfc00 * TWO_112, 0x200 * TWO_112)
    || (InBlock(n, 0xffff_0000_0000, 0x1_0000_0000) && InNineBlocks(n - 0xffff_0000_0000))
  }

  lemma LowBound(ip: Ip)
    requires ip.V6?
    ensures Low112(ip) < TWO_112
  {
  }

  lemma OneOrNone(ip: Ip)
    requires ip.V6?
    ensures Value128(ip) == 0 <==> ip == V6(0, 0, 0, 0, 0, 0, 0, 0)
    ensures Value128(ip) == 1 <==> ip == V6(0, 0, 0, 0, 0, 0, 0, 1)
  {
  }

  predicate IsMapped(ip: Ip)
    requires ip.V6?
  {
    ip.s0 == 0 && ip.s1 == 0 && ip.s2 == 0 && ip.s3 == 0 && ip.s4 == 0 && ip.s5 == 0xffff
  }

  lemma MappedBlock(ip: Ip)
    requires ip.V6?
    ensures InBlock(Value128(ip), 0xffff_0000_0000, 0x1_0000_0000) <==> IsMapped(ip)
  {
    var top := ip.s0 as nat * 0x1_0000_0000_0000_0000_0000 + ip.s1 as nat * 0x1_0000_0000_0000_0000
               + ip.s2 as nat * 0x1_0000_0000_0000 + ip.s3 as nat * 0x1_0000_0000 + ip.s4 as nat * 0x1_0000
               + ip.s5 as nat;
    var low := ip.s6 as nat * 0x1_0000 + ip.s7 as nat;
    assert Value128(ip) == top * 0x1_0000_0000 + low && low < 0x1_0000_0000;
    assert InBlock(Value128(ip), 0xffff_0000_0000, 0x1_0000_0000) <==> top == 0xffff;
  }

  lemma MappedLow(ip: Ip)
    requires ip.V6? && IsMapped(ip)
    ensures Value128(ip) - 0xffff_0000_0000 == Value(Embedded(ip))
  {
    assert ip.s6 as nat == High(ip.s6) as nat * 256 + Low(ip.s6) as nat;
    assert ip.s7 as nat == High(ip.s7) as nat * 256 + Low(ip.s7) as nat;
  }

  /** The segment patterns are exactly these ranges of 128-bit values. */
  lemma BlockedIsV6Ranges(ip: Ip)
    requires ip.V6?
    ensures IsBlocked(ip) <==> InV6Ranges(Value128(ip))
  {
    LowBound(ip);
    MappedBlock(ip);
    if IsMapped(ip) { MappedLow(ip); }
    BlockedIsRanges(Embedded(ip));
    OneOrNone(ip);
    hide InNineBlocks, IsBlockedV4, Low112;
  }

  /** An address that is never contacted, as a number. */
  predicate Forbidden(ip: Ip)
  {
    if ip.V4? then InNineBlocks(Value(ip)) else InV6Ranges(Value128(ip))
  }

  /** 127.0.0.0/8 and `::1`, as numbers. */
  predicate Local(ip: Ip)
  {
    if ip.V4? then InBlock(Value(ip), 0x7F00_0000, 0x100_0000) else Value128(ip) == 1
  }

  lemma AddressChecks(ip: Ip)
    ensures IsBlocked(ip) <==> Forbidden(ip)
    ensures IsLoopback(ip) <==> Local(ip)
  {
    if ip.V4? {
      BlockedIsRanges(ip);
    } else {
      BlockedIsV6Ranges(ip);
      OneOrNone(ip);
    }
    hide InNineBlocks, InV6Ranges, IsBlockedV4, IsBlockedV6;
  }

  // ---- Checks -------------------------------------------------------------------------

  datatype NetworkError =
    | InvalidUrl
    | UnsupportedScheme
    | PlainHttpDisabled
    | CredentialsInUrl
    | DnsResolutionFailed
    | BlockedAddress(addr: SocketAddr)
    | MetadataEndpointBlocked
    | RedirectRejected
    | RedirectLimitExceeded
    | Body(cause: BodyError)
    | Transport(kind: nat)

  /** Settings of the enforcer and of one request; `lower` is Unicode lower-casing. */
  datatype Config = Config(
    allowHttp: bool,
    allowLoopback: bool,
    redirectLimit: nat,
    noRedirect: bool,
    bodyLimit: nat,
    lower: Bytes -> Bytes)

  const AT: byte := 64
  const PLUS: byte := 43

  const HTTPS: Bytes := [104, 116, 116, 112, 115]
  const HTTP: Bytes := [104, 116, 116, 112]
  const SEPARATOR: Bytes := [58, 47, 47]

  function DefaultPort(scheme: Bytes): (p: nat)
  {
    if scheme == HTTPS then 443 else if scheme == HTTP then 80 else 0
  }

  function ValidateScheme(scheme: Bytes, allowHttp: bool): (e: Option<NetworkError>)
  {
    if scheme == HTTPS then None
    else if scheme == HTTP then if allowHttp then None else Some(PlainHttpDisabled)
    else Some(UnsupportedScheme)
  }

  predicate IsControl(b: byte) { b < 32 || b == 127 }

  function ValidateHost(host: Bytes): (e: Option<NetworkError>)
  {
    if host == [] then Some(InvalidUrl)
    else if AT in host then Some(CredentialsInUrl)
    else if exists i :: 0 <= i < |host| && IsControl(host[i]) then Some(InvalidUrl)
    else if |host| > 255 then Some(InvalidUrl)
    else None
  }

  /** A host of 1 to 255 bytes without `@`, control characters or DEL. */
  predicate GoodHost(host: Bytes)
  {
    1 <= |host| <= 255 && forall i :: 0 <= i < |host| ==> 32 <= host[i] && host[i] != 127 && host[i] != 64
  }

  /** Which hosts are accepted, and the error for the others. */
  lemma HostVerdict(host: Bytes)
    ensures ValidateHost(host).None? <==> GoodHost(host)
    ensures !GoodHost(host) ==>
      ValidateHost(host) == Some(HostError(host))
  {
  }

  const METADATA_HOST: Bytes := Ascii("metadata.google.internal")

  predicate IsMetadataHost(cfg: Config, host: Bytes)
  {
    var name := cfg.lower(host);
    var suffix := [46] + METADATA_HOST;
    name == METADATA_HOST || (|suffix| <= |name| && name[|name| - |suffix|..] == suffix)
  }

  /** The metadata host or a name under it. */
  predicate NamesMetadata(name: Bytes)
  {
    var n, text := |name|, Ascii("metadata.google.internal");
    n >= 24 && name[n - 24..] == text && (n == 24 || name[n - 25] == 46)
  }

  lemma MetadataVerdict(cfg: Config, host: Bytes)
    ensures IsMetadataHost(cfg, host) <==> NamesMetadata(cfg.lower(host))
  {
    var name := cfg.lower(host);
    var n, suffix := |name|, [46] + METADATA_HOST;
    if n >= 25 {
      assert name[n - 25..] == [name[n - 25]] + name[n - 24..];
      assert suffix[1..] == METADATA_HOST && name[n - 25..][1..] == name[n - 24..];
    }
    if n == 24 { assert name[0..] == name; }
  }

  predicate IsDigit(b: byte) { 48 <= b <= 57 }

  predicate AllDigits(b: Bytes) { forall i :: 0 <= i < |b| ==> IsDigit(b[i]) }

  /** A 16-bit decimal number, with an optional plus sign. */
  function ParsePort(b: Bytes): (p: Option<nat>)
    ensures p.Some? ==> p.value < 65536
  {
    var digits := if b != [] && b[0] == PLUS then b[1..] else b;
    if digits == [] || !AllDigits(digits) || Canonical.Number(digits) >= 65536 then None
    else Some(Canonical.Number(digits))
  }

  /** A port as it is read: the default one when it does not parse. */
  function ReadPort(scheme: Bytes, text: Bytes): (p: nat)
  {
    var port := ParsePort(text);
    if port.Some? then port.value else DefaultPort(scheme)
  }

  datatype ParsedUrl = ParsedUrl(scheme: Bytes, host: Bytes, port: nat)

  /** Host and port: what precedes the first slash, split at the first colon. */
  function ParseAuthority(scheme: Bytes, rest: Bytes): (p: ParsedUrl)
    ensures p.scheme == scheme
  {
    var hostPart := rest[..Find(SLASH, rest)];
    var colon := Find(COLON, hostPart);
    if colon == |hostPart| then ParsedUrl(scheme, hostPart, DefaultPort(scheme))
    else ParsedUrl(scheme, hostPart[..colon], ReadPort(scheme, hostPart[colon + 1..]))
  }

  /** Scheme, host and port of a redirect target. */
  function ParseUrlParts(url: Bytes): (p: Option<ParsedUrl>)
  {
    var rest :- if HasPrefix(url, HTTPS + SEPARATOR) then Some(url[8..])
                else if HasPrefix(url, HTTP + SEPARATOR) then Some(url[7..])
                else None;
    var scheme := if HasPrefix(url, HTTPS) then HTTPS else HTTP;
    Some(ParseAuthority(scheme, rest))
  }

  function ValidateRedirectUrl(url: Bytes, allowHttp: bool): (e: Option<NetworkError>)
  {
    match ParseUrlParts(url)
    case None => Some(RedirectRejected)
    case Some(parsed) =>
      if parsed.scheme == HTTPS || (parsed.scheme == HTTP && allowHttp) then ValidateHost(parsed.host)
      else Some(RedirectRejected)
  }

  /** An address that a request may use. */
  predicate Allowed(cfg: Config, ip: Ip) { (cfg.allowLoopback && Local(ip)) || !Forbidden(ip) }

  /** The address check of the first request. */
  method CheckAddresses(cfg: Config, addresses: seq<SocketAddr>) returns (e: Option<NetworkError>)
    ensures e.None? <==> forall i :: 0 <= i < |addresses| ==> Allowed(cfg, addresses[i].ip)
    ensures e.Some? ==> e.value.BlockedAddress? && e.value.addr in addresses && !Allowed(cfg, e.value.addr.ip)
  {
    hide Forbidden, Local;
    for k := 0 to |addresses|
      invariant forall i :: 0 <= i < k ==> Allowed(cfg, addresses[i].ip)
    {
      var ip := addresses[k].ip;
      AddressChecks(ip);
      if !(cfg.allowLoopback && IsLoopback(ip)) {
        if IsBlocked(ip) { return Some(BlockedAddress(addresses[k])); }
        if ip.V4? {
          if IsMetadataIp(ip) { return Some(MetadataEndpointBlocked); }
        }
      }
    }
    return None;
  }

  /** The address check of a redirect. */
  method CheckRedirectAddresses(cfg: Config, addresses: seq<SocketAddr>) returns (e: Option<NetworkError>)
    ensures e.None? <==> forall i :: 0 <= i < |addresses| ==> Allowed(cfg, addresses[i].ip)
    ensures e.Some? ==> e.value == RedirectRejected
  {
    hide Forbidden, Local;
    for k := 0 to |addresses|
      invariant forall i :: 0 <= i < k ==> Allowed(cfg, addresses[i].ip)
    {
      AddressChecks(addresses[k].ip);
      if !(cfg.allowLoopback && IsLoopback(addresses[k].ip)) {
        if IsBlocked(addresses[k].ip) { return Some(RedirectRejected); }
      }
    }
    return None;
  }

  // ---- Requests -----------------------------------------------------------------------

  /** What a server may answer: a transport failure, or a status, a location and a body. */
  datatype Reply = Failed(kind: nat) | Response(status: nat, location: Option<Bytes>, body: seq<Read>)

  /** The outside: any resolver and any server, whose answers may change from hop to hop. */
  datatype Outside = Outside(
    resolve: (nat, Bytes, nat) -> Option<seq<SocketAddr>>,
    respond: (nat, Bytes, seq<SocketAddr>) -> Reply)

  ghost predicate Streams(w: Outside)
  {
    forall i, url, addresses :: w.respond(i, url, addresses).Response? ==>
      IsStream(w.respond(i, url, addresses).body)
  }

  /** One request as sent: its URL, the host and port that were resolved, and the addresses
      handed to the HTTP agent. */
  datatype Hop = Hop(url: Bytes, host: Bytes, port: nat, addresses: seq<SocketAddr>)

  datatype Outcome =
    | Done(status: nat, body: Bytes, redirectCount: nat, finalUrl: Bytes)
    | Failure(error: NetworkError)

  predicate IsRedirect(cfg: Config, reply: Reply)
    requires reply.Response?
  {
    !cfg.noRedirect && reply.status in {301, 302, 303, 307, 308}
  }

  /** Request number `i` used addresses that were resolved for it and checked for it, and a scheme
      that the configuration allows. */
  predicate Guarded(cfg: Config, w: Outside, i: nat, hop: Hop)
  {
    && w.resolve(i, hop.host, hop.port) == Some(hop.addresses)
    && hop.addresses != []
    && (forall k :: 0 <= k < |hop.addresses| ==> Allowed(cfg, hop.addresses[k].ip))
    && GoodHost(hop.host)
    && !NamesMetadata(cfg.lower(hop.host))
    && SchemeAllowed(hop.url, cfg.allowHttp)
  }

  function ReplyTo(w: Outside, i: nat, hop: Hop): (r: Reply) { w.respond(i, hop.url, hop.addresses) }

  /** Request number `i` as a redirect to `url` would send it: to what the host of that URL
      resolves to at that point. */
  function Target(w: Outside, i: nat, url: Bytes): (hop: Option<Hop>)
  {
    var parsed :- ParseUrlParts(url);
    var addresses :- w.resolve(i, parsed.host, parsed.port);
    Some(Hop(url, parsed.host, parsed.port, addresses))
  }

  /** The reply to one request points to the next one, numbered `i`. */
  predicate Leads(cfg: Config, w: Outside, i: nat, reply: Reply, next: Hop)
  {
    && reply.Response? && IsRedirect(cfg, reply)
    && reply.location.Some?
    && Target(w, i, reply.location.value) == Some(next)
  }

  predicate Acceptable(cfg: Config, w: Outside, i: nat, url: Bytes)
  {
    Target(w, i, url).Some? && Guarded(cfg, w, i, Target(w, i, url).value)
  }

  /** A chain of guarded requests numbered from `count`, each redirected to the next. */
  predicate Chain(cfg: Config, w: Outside, count: nat, hops: seq<Hop>)
  {
    forall i :: 0 <= i < |hops| ==>
      && Guarded(cfg, w, count + i, hops[i])
      && (i > 0 ==> Leads(cfg, w, count + i, ReplyTo(w, count + i - 1, hops[i - 1]), hops[i]))
  }

  lemma ChainOne(cfg: Config, w: Outside, count: nat, hop: Hop)
    requires Guarded(cfg, w, count, hop)
    ensures Chain(cfg, w, count, [hop])
  {
    hide Guarded;
  }

  lemma ChainCons(cfg: Config, w: Outside, count: nat, first: Hop, rest: seq<Hop>)
    requires Guarded(cfg, w, count, first) && rest != []
    requires Leads(cfg, w, count + 1, ReplyTo(w, count, first), rest[0]) && Chain(cfg, w, count + 1, rest)
    ensures Chain(cfg, w, count, [first] + rest)
  {
    hide Guarded, Leads, ReplyTo;
    var hops := [first] + rest;
    forall i | 0 <= i < |hops|
      ensures Guarded(cfg, w, count + i, hops[i])
      ensures i > 0 ==> Leads(cfg, w, count + i, ReplyTo(w, count + i - 1, hops[i - 1]), hops[i])
    {
      if i > 0 {
        assert hops[i] == rest[i - 1];
        assert i > 1 ==> hops[i - 1] == rest[i - 2];
        assert Guarded(cfg, w, count + 1 + (i - 1), rest[i - 1]);
      }
    }
  }

  predicate SchemeAllowed(url: Bytes, allowHttp: bool)
  {
    HasPrefix(url, HTTPS + SEPARATOR) || (allowHttp && HasPrefix(url, HTTP + SEPARATOR))
  }

  /** What the redirect URL check accepts. */
  lemma RedirectUrlExactly(url: Bytes, allowHttp: bool)
    ensures ParseUrlParts(url).Some? <==> SchemeAllowed(url, true)
    ensures ValidateRedirectUrl(url, allowHttp)
            == if !SchemeAllowed(url, allowHttp) then Some(RedirectRejected)
               else ValidateHost(ParseUrlParts(url).value.host)
  {
    hide ValidateHost, ParseAuthority;
    if HasPrefix(url, HTTP + SEPARATOR) {
      assert url[..7][4] == COLON;
      assert url[..5][4] == COLON;
    }
  }

  /** The error for a host that is not accepted. */
  function HostError(host: Bytes): (e: NetworkError)
  {
    if host != [] && 64 in host then CredentialsInUrl else InvalidUrl
  }

  /** Why a redirect target is refused. */
  ghost predicate RefusedTarget(cfg: Config, w: Outside, i: nat, url: Bytes, e: NetworkError)
  {
    if !SchemeAllowed(url, cfg.allowHttp) || ParseUrlParts(url).None? then e == RedirectRejected
    else
      var parsed := ParseUrlParts(url).value;
      var answer := w.resolve(i, parsed.host, parsed.port);
      if !GoodHost(parsed.host) then e == HostError(parsed.host)
      else if NamesMetadata(cfg.lower(parsed.host)) then e == MetadataEndpointBlocked
      else if answer.None? || answer.value == [] then e == DnsResolutionFailed
      else e == RedirectRejected && exists k :: 0 <= k < |answer.value| && !Allowed(cfg, answer.value[k].ip)
  }

  /** Why the first request is refused. */
  ghost predicate RefusedFirst(cfg: Config, w: Outside, scheme: Bytes, host: Bytes, port: nat, e: NetworkError)
  {
    var answer := w.resolve(0, host, port);
    if scheme == HTTP && !cfg.allowHttp then e == PlainHttpDisabled
    else if scheme != HTTPS && scheme != HTTP then e == UnsupportedScheme
    else if !GoodHost(host) then e == HostError(host)
    else if NamesMetadata(cfg.lower(host)) then e == MetadataEndpointBlocked
    else if answer.None? || answer.value == [] then e == DnsResolutionFailed
    else e.BlockedAddress? && e.addr in answer.value && !Allowed(cfg, e.addr.ip)
  }

  method ResolveHost(w: Outside, i: nat, host: Bytes, port: nat) returns (r: Option<seq<SocketAddr>>)
    ensures r.Some? ==> w.resolve(i, host, port) == r && r.value != []
    ensures r.None? ==> w.resolve(i, host, port).None? || w.resolve(i, host, port) == Some([])
  {
    r := w.resolve(i, host, port);
    if r.Some? && r.value == [] { r := None; }
  }

  /** The checks between a redirect reply and the request that follows it. */
  method NextHop(cfg: Config, w: Outside, count: nat, url: Bytes) returns (next: Option<Hop>, e: NetworkError)
    ensures next.Some? <==> Acceptable(cfg, w, count, url)
    ensures next.Some? ==> next == Target(w, count, url)
    ensures next.None? ==> RefusedTarget(cfg, w, count, url, e)
  {
    hide ParseUrlParts, ValidateRedirectUrl, ValidateHost, IsMetadataHost, Allowed, GoodHost, NamesMetadata;
    RedirectUrlExactly(url, cfg.allowHttp);
    if !HasPrefix(url, HTTP + SEPARATOR) && !HasPrefix(url, HTTPS + SEPARATOR) {
      return None, RedirectRejected;
    }
    var invalid := ValidateRedirectUrl(url, cfg.allowHttp);
    if ParseUrlParts(url).Some? { HostVerdict(ParseUrlParts(url).value.host); }
    if invalid.Some? { return None, invalid.value; }
    var parsed := ParseUrlParts(url).value;
    MetadataVerdict(cfg, parsed.host);
    if IsMetadataHost(cfg, parsed.host) { return None, MetadataEndpointBlocked; }
    var addresses := ResolveHost(w, count, parsed.host, parsed.port);
    if addresses.None? { return None, DnsResolutionFailed; }
    var refused := CheckRedirectAddresses(cfg, addresses.value);
    if refused.Some? { return None, refused.value; }
    return Some(Hop(url, parsed.host, parsed.port, addresses.value)), RedirectRejected;
  }

  /** Sends `hop` as request number `count` and follows redirects from there. */
  method ExecuteHttp(cfg: Config, w: Outside, hop: Hop, count: nat) returns (r: Outcome, hops: seq<Hop>)
    requires Streams(w) && count <= cfg.redirectLimit && Guarded(cfg, w, count, hop)
    ensures hops != [] && hops[0] == hop
    ensures Chain(cfg, w, count, hops)
    ensures count + |hops| <= cfg.redirectLimit + 1
    ensures Concludes(cfg, w, ReplyTo(w, count + |hops| - 1, hops[|hops| - 1]), count + |hops| - 1,
                      hops[|hops| - 1].url, r)
    decreases cfg.redirectLimit - count
  {
    hide Guarded, ParseUrlParts, Chain, StopsAt, Joined, RefusedTarget, Cause;
    ChainOne(cfg, w, count, hop);
    hops := [hop];
    var reply := w.respond(count, hop.url, hop.addresses);
    if reply.Failed? { return Failure(Transport(reply.kind)), hops; }
    var status := reply.status;
    if !cfg.noRedirect
       && (status == 301 || status == 302 || status == 303 || status == 307 || status == 308) {
      if count >= cfg.redirectLimit { return Failure(RedirectLimitExceeded), hops; }
      if reply.location.Some? {
        var next, e := NextHop(cfg, w, count + 1, reply.location.value);
        if next.None? { return Failure(e), hops; }
        var rest;
        r, rest := ExecuteHttp(cfg, w, next.value, count + 1);
        ChainCons(cfg, w, count, hop, rest);
        return r, [hop] + rest;
      }
    }
    var body := ReadBody(reply.body, cfg.bodyLimit);
    if body.Err? { return Failure(Body(body.error)), hops; }
    r := Done(reply.status, body.value, count, hop.url);
  }

  /** How the call ends, given the reply to its last request, numbered `count`. */
  ghost predicate Concludes(cfg: Config, w: Outside, reply: Reply, count: nat, url: Bytes, r: Outcome)
  {
    match reply
    case Failed(kind) => r == Failure(Transport(kind))
    case Response(status, location, body) =>
      if IsRedirect(cfg, reply) && count >= cfg.redirectLimit then r == Failure(RedirectLimitExceeded)
      else if IsRedirect(cfg, reply) && location.Some? then
        && !Acceptable(cfg, w, count + 1, location.value)
        && r.Failure? && RefusedTarget(cfg, w, count + 1, location.value, r.error)
      else if forall k: nat :: !StopsAt(body, cfg.bodyLimit, k) then
        r == Done(status, Joined(body, |body|), count, url)
      else exists k: nat :: StopsAt(body, cfg.bodyLimit, k) && r == Failure(Body(Cause(body[k])))
  }

  function Url(scheme: Bytes, host: Bytes, port: Bytes, path: Bytes): (url: Bytes)
    ensures HasPrefix(url, scheme + SEPARATOR)
  {
    scheme + SEPARATOR + host + [COLON] + port + path
  }

  lemma {:induction false} DecimalIsDigits(n: nat)
    ensures Canonical.Decimal(n) != [] && AllDigits(Canonical.Decimal(n))
  {
    if n >= 10 { DecimalIsDigits(n / 10); }
  }

  lemma PortRoundTrip(port: nat)
    requires port < 65536
    ensures ParsePort(Canonical.Decimal(port)) == Some(port)
  {
    DecimalIsDigits(port);
    Canonical.DecimalRoundTrip(port);
    assert Canonical.Decimal(port)[0] != PLUS;
  }

  /** A plus sign before the port is accepted. */
  lemma PlusPort(port: nat)
    requires port < 65536
    ensures ParsePort([43] + Canonical.Decimal(port)) == Some(port)
  {
    assert ([43] + Canonical.Decimal(port))[1..] == Canonical.Decimal(port);
    DecimalIsDigits(port);
    Canonical.DecimalRoundTrip(port);
  }

  lemma StripScheme(scheme: Bytes, rest: Bytes)
    requires scheme == HTTPS || scheme == HTTP
    ensures ParseUrlParts(scheme + SEPARATOR + rest) == Some(ParseAuthority(scheme, rest))
  {
    hide ParseAuthority;
    var url := scheme + SEPARATOR + rest;
    assert url[..|scheme| + 3] == scheme + SEPARATOR;
    assert url[|scheme| + 3..] == rest;
    assert url[..5][4] == url[4];
    assert url[4] == if scheme == HTTP then COLON else 115;
    assert scheme == HTTPS ==> url[..5] == HTTPS;
    assert |url| >= 8 ==> url[..8][4] == url[4];
  }

  /** The part of a path that the URL text glues to the port. */
  function Glued(path: Bytes): (text: Bytes) { path[..Find(SLASH, path)] }

  predicate AllZeros(b: Bytes) { forall i :: 0 <= i < |b| ==> b[i] == 48 }

  /** A port followed by `text` is still read as that port. */
  predicate PortSurvives(scheme: Bytes, port: nat, text: Bytes)
  {
    text == []
    || (if AllDigits(text) && Canonical.Number(Canonical.Decimal(port) + text) < 65536
        then port == 0 && AllZeros(text)
        else port == DefaultPort(scheme))
  }

  lemma NumberSnoc(a: Bytes, d: byte)
    requires IsDigit(d)
    ensures Canonical.Number(a + [d]) == 10 * Canonical.Number(a) + (d as int - 48)
  {
    assert (a + [d])[..|a|] == a;
  }

  /** Appending digits changes a number unless everything is zero. */
  lemma {:induction false} NumberGrows(a: Bytes, b: Bytes)
    requires AllDigits(b) && b != []
    ensures Canonical.Number(a + b) == Canonical.Number(a) <==> Canonical.Number(a) == 0 && AllZeros(b)
    ensures Canonical.Number(a + b) >= Canonical.Number(a)
  {
    var n := |b| - 1;
    assert a + b == a + b[..n] + [b[n]];
    NumberSnoc(a + b[..n], b[n]);
    if n == 0 {
      assert a + b[..0] == a;
    } else {
      NumberGrows(a, b[..n]);
      assert AllZeros(b) <==> AllZeros(b[..n]) && b[n] == 48;
    }
  }

  lemma PortExactly(scheme: Bytes, port: nat, text: Bytes)
    requires port < 65536
    ensures ReadPort(scheme, Canonical.Decimal(port) + text) == port <==> PortSurvives(scheme, port, text)
  {
    var digits := Canonical.Decimal(port);
    DecimalIsDigits(port);
    Canonical.DecimalRoundTrip(port);
    assert digits[0] != PLUS;
    hide Canonical.Decimal, Canonical.Number;
    if text == [] {
      assert digits + text == digits;
    } else {
      var all := digits + text;
      assert all[0] == digits[0];
      assert AllDigits(all) <==> AllDigits(text) by {
        assert forall i :: 0 <= i < |text| ==> all[|digits| + i] == text[i];
      }
      if AllDigits(text) { NumberGrows(digits, text); }
    }
  }

  lemma AuthorityParts(scheme: Bytes, host: Bytes, digits: Bytes, path: Bytes)
    requires SLASH !in host && COLON !in host && SLASH !in digits
    ensures ParseAuthority(scheme, host + [COLON] + digits + path)
            == ParsedUrl(scheme, host, ReadPort(scheme, digits + Glued(path)))
  {
    hide ReadPort;
    var authority := host + [COLON] + digits;
    FindAfter(SLASH, authority, path);
    var text := digits + Glued(path);
    var hostPart := host + [COLON] + text;
    assert (authority + path)[..|authority| + |Glued(path)|] == hostPart;
    FindAt(COLON, host, text);
    assert hostPart[..|host|] == host && hostPart[|host| + 1..] == text;
  }

  lemma ParsedHostIsPlain(scheme: Bytes, rest: Bytes)
    ensures SLASH !in ParseAuthority(scheme, rest).host && COLON !in ParseAuthority(scheme, rest).host
  {
    hide ReadPort;
    var hostPart := rest[..Find(SLASH, rest)];
    assert hostPart[..|hostPart|] == hostPart;
  }

  /** Parsing the URL of a request gives back the scheme, host and port it was built from, if and only
      if the host has no slash or colon and the port survives the text before the path's first slash. */
  lemma UrlRoundTrip(scheme: Bytes, host: Bytes, port: nat, path: Bytes)
    requires (scheme == HTTPS || scheme == HTTP) && port < 65536
    ensures ParseUrlParts(Url(scheme, host, Canonical.Decimal(port), path)) == Some(ParsedUrl(scheme, host, port))
            <==> SLASH !in host && COLON !in host && PortSurvives(scheme, port, Glued(path))
  {
    hide ParseUrlParts, ParseAuthority, Canonical.Decimal, PortSurvives;
    var digits := Canonical.Decimal(port);
    var rest := host + [COLON] + digits + path;
    assert Url(scheme, host, digits, path) == scheme + SEPARATOR + rest;
    StripScheme(scheme, rest);
    ParsedHostIsPlain(scheme, rest);
    if SLASH !in host && COLON !in host {
      DecimalIsDigits(port);
      assert SLASH !in digits;
      AuthorityParts(scheme, host, digits, path);
      PortExactly(scheme, port, Glued(path));
    }
  }

  /** For a path that is empty or starts with a slash only the host matters. */
  lemma SlashPathRoundTrip(scheme: Bytes, host: Bytes, port: nat, path: Bytes)
    requires (scheme == HTTPS || scheme == HTTP) && port < 65536 && (path == [] || path[0] == SLASH)
    ensures ParseUrlParts(Url(scheme, host, Canonical.Decimal(port), path)) == Some(ParsedUrl(scheme, host, port))
            <==> SLASH !in host && COLON !in host
  {
    hide ParseUrlParts;
    assert Glued(path) == [];
    UrlRoundTrip(scheme, host, port, path);
  }

  /** A URL without a port has the default one. */
  lemma UrlWithoutPort(scheme: Bytes, host: Bytes, path: Bytes)
    requires (scheme == HTTPS || scheme == HTTP) && SLASH !in host && COLON !in host
    requires path == [] || path[0] == SLASH
    ensures ParseUrlParts(scheme + SEPARATOR + (host + path))
            == Some(ParsedUrl(scheme, host, if scheme == HTTPS then 443 else 80))
  {
    StripScheme(scheme, host + path);
    hide ParseUrlParts;
    FindAfter(SLASH, host, path);
    assert path == [] || Find(SLASH, path) == 0;
    assert (host + path)[..|host|] == host;
    FindAfter(COLON, host, []);
    assert host + [] == host;
  }

  /** A relative path can change the port that is read: `443` followed by `5/x` is read as 4435. */
  lemma RelativePathChangesPort(host: Bytes)
    requires SLASH !in host && COLON !in host
    ensures ParseUrlParts(Url(HTTPS, host, Canonical.Decimal(443), [53, SLASH, 120]))
            == Some(ParsedUrl(HTTPS, host, 4435))
  {
    var digits, path: Bytes := Canonical.Decimal(443), [53, SLASH, 120];
    DecimalIsDigits(443);
    assert SLASH !in digits;
    assert Canonical.Decimal(4435) == Canonical.Decimal(443) + [53];
    PortRoundTrip(4435);
    hide ParseUrlParts, ParseAuthority, Canonical.Decimal, ParsePort;
    assert path == [53] + [SLASH] + [120];
    FindAt(SLASH, [53], [120]);
    assert Glued(path) == [53];
    var rest := host + [COLON] + digits + path;
    assert Url(HTTPS, host, digits, path) == HTTPS + SEPARATOR + rest;
    StripScheme(HTTPS, rest);
    AuthorityParts(HTTPS, host, digits, path);
  }

  /** The first request, to what the host resolves to; the port is written in decimal. */
  function First(w: Outside, scheme: Bytes, host: Bytes, port: nat, path: Bytes): (hop: Option<Hop>)
  {
    var addresses :- w.resolve(0, host, port);
    var url := scheme + Ascii("://") + host + Ascii(":") + Canonical.Decimal(port) + path;
    Some(Hop(url, host, port, addresses))
  }

  /** The port that is asked for, or the one of the scheme. */
  function PortOf(scheme: Bytes, port: Option<nat>): (p: nat)
  {
    match port
    case Some(n) => n
    case None => if scheme == HTTPS then 443 else if scheme == HTTP then 80 else 0
  }

  /** A guarded request: whatever servers and resolver answer, it ends after a chain of at most
      `redirectLimit + 1` guarded requests, and a refused target is never contacted. */
  method Execute(cfg: Config, w: Outside, scheme: Bytes, host: Bytes, port: Option<nat>, path: Bytes)
    returns (r: Outcome, hops: seq<Hop>)
    requires Streams(w)
    ensures |hops| <= cfg.redirectLimit + 1
    ensures Chain(cfg, w, 0, hops)
    ensures forall i :: 0 <= i < |hops| ==> Safe(cfg, hops[i])
    ensures
      var first := First(w, scheme, host, PortOf(scheme, port), path);
      if (scheme == HTTPS || (scheme == HTTP && cfg.allowHttp)) && first.Some? && Guarded(cfg, w, 0, first.value)
      then hops != [] && hops[0] == first.value
      else hops == [] && r.Failure? && RefusedFirst(cfg, w, scheme, host, PortOf(scheme, port), r.error)
    ensures hops != [] ==>
      Concludes(cfg, w, ReplyTo(w, |hops| - 1, hops[|hops| - 1]), |hops| - 1, hops[|hops| - 1].url, r)
  {
    hide ValidateHost, IsMetadataHost, Allowed, ParseUrlParts, Concludes, Chain, Safe, GoodHost, NamesMetadata;
    assert Chain(cfg, w, 0, []) by { ChainNone(cfg, w); }
    assert Ascii("://") == SEPARATOR && Ascii(":") == [COLON];
    HostVerdict(host);
    MetadataVerdict(cfg, host);
    var at := if port.Some? then port.value else DefaultPort(scheme);
    var bad := ValidateScheme(scheme, cfg.allowHttp);
    if bad.Some? { return Failure(bad.value), []; }
    bad := ValidateHost(host);
    if bad.Some? { return Failure(bad.value), []; }
    if IsMetadataHost(cfg, host) { return Failure(MetadataEndpointBlocked), []; }
    var addresses := ResolveHost(w, 0, host, at);
    if addresses.None? { return Failure(DnsResolutionFailed), []; }
    bad := CheckAddresses(cfg, addresses.value);
    if bad.Some? { return Failure(bad.value), []; }
    var url := Url(scheme, host, Canonical.Decimal(at), path);
    r, hops := ExecuteHttp(cfg, w, Hop(url, host, at, addresses.value), 0);
    EveryHopIsSafe(cfg, w, 0, hops);
  }

  lemma ChainNone(cfg: Config, w: Outside)
    ensures Chain(cfg, w, 0, [])
  {
  }

  /** With plain HTTP disabled a safe request is https, and it goes to a blocked address only if that
      is a loopback address and loopback is allowed. */
  predicate Safe(cfg: Config, hop: Hop)
  {
    && (!cfg.allowHttp ==> HasPrefix(hop.url, HTTPS + SEPARATOR))
    && forall k :: 0 <= k < |hop.addresses| && Forbidden(hop.addresses[k].ip) ==>
         cfg.allowLoopback && Local(hop.addresses[k].ip)
  }

  lemma EveryHopIsSafe(cfg: Config, w: Outside, count: nat, hops: seq<Hop>)
    requires Chain(cfg, w, count, hops)
    ensures forall i :: 0 <= i < |hops| ==> Safe(cfg, hops[i])
  {
    hide Forbidden, Local, GoodHost, NamesMetadata;
    forall i | 0 <= i < |hops| ensures Safe(cfg, hops[i]) {
      assert Guarded(cfg, w, count + i, hops[i]);
    }
  }
}

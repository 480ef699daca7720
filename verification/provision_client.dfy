/** Client-instance provisioning (provision_client.py): the random instance
    name, the DNS A-record request, the connection descriptor, and the
    straight-line flow that ties them to the cloud and DNS calls, whose
    replies are parameters. */
module ProvisionClient {
  import opened Results

  // ---------------------------------------------------------------------------
  // Instance naming
  // ---------------------------------------------------------------------------

  /** `string.ascii_lowercase`: 'a' to 'z' in order. */
  const AsciiLowercase: string := seq(26, i requires 0 <= i < 26 => ('a' as int + i) as char)
  /** `string.digits`: '0' to '9' in order. */
  const Digits: string := seq(10, i requires 0 <= i < 10 => ('0' as int + i) as char)
  /** The alphabet the random part is drawn from. */
  const Alphabet: string := AsciiLowercase + Digits

  predicate IsLowerOrDigit(c: char) {
    'a' <= c <= 'z' || '0' <= c <= '9'
  }

  /** The alphabet holds exactly the lowercase ASCII letters and the digits. */
  lemma AlphabetChars()
    ensures |Alphabet| == 36
    ensures forall c :: c in Alphabet <==> IsLowerOrDigit(c)
  {
    forall c | IsLowerOrDigit(c) ensures c in Alphabet {
      if 'a' <= c <= 'z' {
        assert AsciiLowercase[c as int - 'a' as int] == c;
        assert Alphabet[c as int - 'a' as int] == c;
      } else {
        assert Digits[c as int - '0' as int] == c;
        assert Alphabet[26 + c as int - '0' as int] == c;
      }
    }
    forall c | c in Alphabet ensures IsLowerOrDigit(c) {
      var k :| 0 <= k < |Alphabet| && Alphabet[k] == c;
      if k < 26 {
        assert c == AsciiLowercase[k];
      } else {
        assert c == Digits[k - 26];
      }
    }
  }
  const SubdomainPrefix: string := "inst-"
  const RandomLength: nat := 8

  /** A generated instance label: `inst-` then eight lowercase letters or digits. */
  predicate IsInstanceLabel(s: string) {
    && |s| == |SubdomainPrefix| + RandomLength
    && s[..|SubdomainPrefix|] == SubdomainPrefix
    && forall i :: |SubdomainPrefix| <= i < |s| ==> IsLowerOrDigit(s[i])
  }

  /** The subdomain built from the eight characters the random source chose. */
  function Subdomain(choices: string): (sub: string)
    requires |choices| == RandomLength
    requires forall c :: c in choices ==> c in Alphabet
    ensures IsInstanceLabel(sub)
    ensures sub[|SubdomainPrefix|..] == choices
  {
    AlphabetChars();
    SubdomainPrefix + choices
  }

  /** Every instance label is the subdomain of its own random part, so the
      labels are exactly the subdomains the flow can produce. */
  lemma SubdomainOnto(sub: string)
    requires IsInstanceLabel(sub)
    ensures var choices := sub[|SubdomainPrefix|..];
      && |choices| == RandomLength
      && (forall c :: c in choices ==> c in Alphabet)
      && Subdomain(choices) == sub
  {
    AlphabetChars();
    var choices := sub[|SubdomainPrefix|..];
    forall k | 0 <= k < |choices| ensures IsLowerOrDigit(choices[k]) {
      assert choices[k] == sub[k + |SubdomainPrefix|];
    }
    assert sub == sub[..|SubdomainPrefix|] + choices;
  }

  lemma InstanceLabelHasNoDot(sub: string)
    requires IsInstanceLabel(sub)
    ensures '.' !in sub
  {
  }

  /** `f"{subdomain}.{base_domain}"`: the label, one dot, the base domain. */
  function Fqdn(sub: string, baseDomain: string): (fqdn: string)
    ensures |fqdn| == |sub| + 1 + |baseDomain|
    ensures fqdn[..|sub|] == sub && fqdn[|sub|] == '.' && fqdn[|sub| + 1..] == baseDomain
  {
    sub + "." + baseDomain
  }

  /** Splits a host name at its first dot into the leftmost label and the
      rest (None when there is no dot). */
  function SplitHost(host: string): (parts: (string, Option<string>))
    ensures '.' !in parts.0
    ensures parts.1.None? ==> parts.0 == host
    ensures parts.1.Some? ==> host == parts.0 + "." + parts.1.value
  {
    if host == [] then ([], None)
    else if host[0] == '.' then ([], Some(host[1..]))
    else
      var rest := SplitHost(host[1..]);
      ([host[0]] + rest.0, rest.1)
  }

  /** The fqdn splits back into the label and the base domain whenever the
      label has no dot of its own. */
  lemma {:induction false} SplitFqdn(sub: string, baseDomain: string)
    requires '.' !in sub
    ensures SplitHost(Fqdn(sub, baseDomain)) == (sub, Some(baseDomain))
  {
    if sub != [] {
      assert Fqdn(sub, baseDomain)[1..] == Fqdn(sub[1..], baseDomain);
      assert sub == [sub[0]] + sub[1..];
      SplitFqdn(sub[1..], baseDomain);
    } else {
      assert Fqdn(sub, baseDomain)[1..] == baseDomain;
    }
  }

  /** A generated fqdn names its instance label as leftmost label and the
      configured base domain as the rest. */
  lemma GeneratedFqdnSplits(choices: string, baseDomain: string)
    requires |choices| == RandomLength
    requires forall c :: c in choices ==> c in Alphabet
    ensures SplitHost(Fqdn(Subdomain(choices), baseDomain)) == (Subdomain(choices), Some(baseDomain))
    ensures IsInstanceLabel(SplitHost(Fqdn(Subdomain(choices), baseDomain)).0)
  {
    InstanceLabelHasNoDot(Subdomain(choices));
    SplitFqdn(Subdomain(choices), baseDomain);
  }

  // ---------------------------------------------------------------------------
  // Connection descriptor
  // ---------------------------------------------------------------------------

  const BrowserScheme: string := "https://"
  const BrowserPort: string := "7473"
  const BoltScheme: string := "neo4j+s://"
  const BoltPort: string := "7687"
  const InitialPasswordInfo: string :=
    "При первом входе пароль не требуется. Система попросит вас создать свой новый пароль."

  /** The dictionary returned to the caller of provision_neo4j_for_client. */
  datatype Descriptor = Descriptor(
    status: string,
    fqdn: string,
    browserUrl: string,
    connectUri: string,
    user: string,
    initialPasswordInfo: string)

  /** `f"{scheme}{host}:{port}"`: the scheme, the host, a colon, the port. */
  function Url(scheme: string, host: string, port: string): (url: string)
    ensures |url| == |scheme| + |host| + 1 + |port|
    ensures url[..|scheme|] == scheme && url[|scheme|..|scheme| + |host|] == host
    ensures url[|scheme| + |host|] == ':' && url[|scheme| + |host| + 1..] == port
  {
    scheme + host + ":" + port
  }

  /** The host between `scheme` and `":" + port`, if `url` has that shape. */
  function HostOf(url: string, scheme: string, port: string): (host: Option<string>)
    ensures host.Some? ==> Url(scheme, host.value, port) == url
  {
    var tail := ":" + port;
    if |url| >= |scheme| + |tail| && url[..|scheme|] == scheme && url[|url| - |tail|..] == tail
    then
      assert url == url[..|scheme|] + url[|scheme|..|url| - |tail|] + url[|url| - |tail|..];
      Some(url[|scheme|..|url| - |tail|])
    else None
  }

  lemma UrlHost(scheme: string, host: string, port: string)
    ensures HostOf(Url(scheme, host, port), scheme, port) == Some(host)
  {
    var url := Url(scheme, host, port);
    assert url[..|scheme|] == scheme;
    assert url[|url| - |":" + port|..] == ":" + port;
    assert url[|scheme|..|url| - |":" + port|] == host;
  }

  /** The descriptor for a freshly created instance named `fqdn`. */
  function DescriptorFor(fqdn: string): (d: Descriptor)
    ensures d.status == "provisioning" && d.user == "neo4j" && d.fqdn == fqdn
    ensures d.initialPasswordInfo == InitialPasswordInfo
    ensures HostOf(d.browserUrl, BrowserScheme, BrowserPort) == Some(fqdn)
    ensures HostOf(d.connectUri, BoltScheme, BoltPort) == Some(fqdn)
  {
    UrlHost(BrowserScheme, fqdn, BrowserPort);
    UrlHost(BoltScheme, fqdn, BoltPort);
    Descriptor("provisioning", fqdn, Url(BrowserScheme, fqdn, BrowserPort),
               Url(BoltScheme, fqdn, BoltPort), "neo4j", InitialPasswordInfo)
  }

  // ---------------------------------------------------------------------------
  // DNS A record
  // ---------------------------------------------------------------------------

  const DnsApiPrefix: string := "https://api.cloudflare.com/client/v4/zones/"
  const DnsApiSuffix: string := "/dns_records"

  /** The process-wide settings read from the environment. `userData` is the
      bootstrap script handed to the new server, passed through unread. */
  datatype Config = Config(
    hetznerToken: string,
    sshKeyName: string,
    baseDomain: string,
    cloudflareToken: string,
    cloudflareZoneId: string,
    snapshotName: string,
    userData: string)

  /** The JSON body of the record-creation request. */
  datatype ARecord = ARecord(recordType: string, name: string, content: string, ttl: int, proxied: bool)

  datatype HttpPost = HttpPost(url: string, headers: seq<(string, string)>, body: ARecord)

  /** The DNS provider's reply: an HTTP status, or a transport error raised by the post itself. */
  datatype HttpReply = Status(code: int) | TransportError

  /** The zone id embedded in a record-creation URL. */
  function ZoneIdOf(url: string): (zoneId: Option<string>)
    ensures zoneId.Some? ==> DnsApiPrefix + zoneId.value + DnsApiSuffix == url
  {
    if |url| >= |DnsApiPrefix| + |DnsApiSuffix| && url[..|DnsApiPrefix|] == DnsApiPrefix
       && url[|url| - |DnsApiSuffix|..] == DnsApiSuffix
    then
      assert url == url[..|DnsApiPrefix|] + url[|DnsApiPrefix|..|url| - |DnsApiSuffix|] + url[|url| - |DnsApiSuffix|..];
      Some(url[|DnsApiPrefix|..|url| - |DnsApiSuffix|])
    else None
  }

  /** create_cloudflare_dns_record's request: an automatic-TTL, proxied A
      record from `fqdn` to `ip`, posted to the configured zone. */
  function DnsRecordRequest(cfg: Config, fqdn: string, ip: string): (req: HttpPost)
    ensures ZoneIdOf(req.url) == Some(cfg.cloudflareZoneId)
    ensures req.body == ARecord("A", fqdn, ip, 1, true)
    ensures ("Authorization", "Bearer " + cfg.cloudflareToken) in req.headers
  {
    var url := DnsApiPrefix + cfg.cloudflareZoneId + DnsApiSuffix;
    assert url[..|DnsApiPrefix|] == DnsApiPrefix;
    assert url[|url| - |DnsApiSuffix|..] == DnsApiSuffix;
    assert url[|DnsApiPrefix|..|url| - |DnsApiSuffix|] == cfg.cloudflareZoneId;
    HttpPost(url,
             [("Authorization", "Bearer " + cfg.cloudflareToken), ("Content-Type", "application/json")],
             ARecord("A", fqdn, ip, 1, true))
  }

  /** Whether `response.raise_for_status()` (or the post itself) raises:
      client and server error statuses, and transport errors. */
  predicate DnsFails(reply: HttpReply)
    ensures reply.TransportError? ==> DnsFails(reply)
    ensures reply.Status? && 400 <= reply.code < 500 ==> DnsFails(reply)
    ensures reply.Status? && 500 <= reply.code < 600 ==> DnsFails(reply)
    ensures reply.Status? && (reply.code < 400 || 600 <= reply.code) ==> !DnsFails(reply)
  {
    reply.TransportError? || 400 <= reply.code < 600
  }

  // ---------------------------------------------------------------------------
  // The provisioning flow
  // ---------------------------------------------------------------------------

  const ServerType: string := "cx22"

  datatype Image = Image(id: nat, name: string)
  datatype SshKey = SshKey(id: nat, name: string)
  datatype Server = Server(id: nat, name: string, ipv4: string)

  datatype ServerRequest = ServerRequest(
    name: string,
    serverType: string,
    image: Image,
    location: string,
    sshKeys: seq<Option<SshKey>>,
    userData: string)

  /** An external call the flow makes, in the order it makes them. */
  datatype Call =
    | GetImageByName(imageName: string)
    | GetSshKeyByName(keyName: string)
    | CreateServer(server: ServerRequest)
    | PostDnsRecord(post: HttpPost)

  /** What a `get_by_name` lookup of the cloud API does: find the item,
      return None, or raise. */
  datatype Lookup<+T> = Found(item: T) | NotFound | Raises

  /** The value a lookup that did not raise hands back to the caller. */
  function Answer<T>(lookup: Lookup<T>): (answer: Option<T>)
    requires !lookup.Raises?
    ensures answer.Some? <==> lookup.Found?
    ensures answer.Some? ==> answer.value == lookup.item
  {
    if lookup.Found? then Some(lookup.item) else None
  }

  /** What the external collaborators answer: the snapshot lookup, the key
      lookup, the created server (None when the cloud API raises) and the DNS
      provider's reply. */
  datatype Replies = Replies(snapshot: Lookup<Image>, sshKey: Lookup<SshKey>, created: Option<Server>, dns: HttpReply)

  /** Why the flow raised instead of returning a descriptor: a lookup call
      raised, the snapshot was not found, the server creation raised, or the
      DNS post raised. */
  datatype Failure =
    | LookupFailed(call: Call)
    | SnapshotNotFound(snapshotName: string)
    | ServerCreateFailed
    | DnsRecordFailed(reply: HttpReply)

  /** The calls made, in order, and what the flow returned or raised. */
  datatype Run = Run(calls: seq<Call>, result: Result<Descriptor, Failure>)

  /** provision_neo4j_for_client: look up the snapshot, name the instance,
      create the server from the snapshot, point a DNS record at its IP and
      return the descriptor at once. `choices` are the eight random
      characters. */
  function Provision(cfg: Config, location: string, choices: string, replies: Replies): (run: Run)
    requires |choices| == RandomLength
    requires forall c :: c in choices ==> c in Alphabet
    ensures 1 <= |run.calls| <= 4
    ensures run.result.Ok? ==> |run.calls| == 4
  {
    var lookup := GetImageByName(cfg.snapshotName);
    match replies.snapshot
    case Raises => Run([lookup], Err(LookupFailed(lookup)))
    case NotFound => Run([lookup], Err(SnapshotNotFound(cfg.snapshotName)))
    case Found(image) =>
      var fqdn := Fqdn(Subdomain(choices), cfg.baseDomain);
      var keyLookup := GetSshKeyByName(cfg.sshKeyName);
      if replies.sshKey.Raises? then Run([lookup, keyLookup], Err(LookupFailed(keyLookup)))
      else
        var create := CreateServer(ServerRequest(fqdn, ServerType, image, location, [Answer(replies.sshKey)], cfg.userData));
        var created := [lookup, keyLookup, create];
        match replies.created
        case None => Run(created, Err(ServerCreateFailed))
        case Some(server) =>
          var calls := created + [PostDnsRecord(DnsRecordRequest(cfg, fqdn, server.ipv4))];
          if DnsFails(replies.dns) then Run(calls, Err(DnsRecordFailed(replies.dns)))
          else Run(calls, Ok(DescriptorFor(fqdn)))
  }

  /** The position each kind of call has in the flow. */
  function Step(c: Call): nat {
    match c
    case GetImageByName(_) => 0
    case GetSshKeyByName(_) => 1
    case CreateServer(_) => 2
    case PostDnsRecord(_) => 3
  }

  /** The calls made are always a prefix of: snapshot lookup, key lookup,
      server creation, DNS post; each at most once and nothing else (in
      particular the server is never deleted). */
  lemma CallOrder(cfg: Config, location: string, choices: string, replies: Replies)
    requires |choices| == RandomLength
    requires forall c :: c in choices ==> c in Alphabet
    ensures var run := Provision(cfg, location, choices, replies);
      forall i :: 0 <= i < |run.calls| ==> Step(run.calls[i]) == i
  {
  }

  /** A missing snapshot raises after the lookup alone: no server is created
      and no DNS record is posted. */
  lemma MissingSnapshotCreatesNothing(cfg: Config, location: string, choices: string, replies: Replies)
    requires |choices| == RandomLength
    requires forall c :: c in choices ==> c in Alphabet
    requires replies.snapshot.NotFound?
    ensures Provision(cfg, location, choices, replies) == Run([GetImageByName(cfg.snapshotName)], Err(SnapshotNotFound(cfg.snapshotName)))
  {
  }

  /** A lookup that raises ends the flow at that lookup: after one call when
      the snapshot lookup raises, after two when the key lookup does, and in
      neither case is a server created or a DNS record posted. */
  lemma LookupFailureCreatesNothing(cfg: Config, location: string, choices: string, replies: Replies)
    requires |choices| == RandomLength
    requires forall c :: c in choices ==> c in Alphabet
    requires replies.snapshot.Raises? || (replies.snapshot.Found? && replies.sshKey.Raises?)
    ensures var run := Provision(cfg, location, choices, replies);
      && |run.calls| == (if replies.snapshot.Raises? then 1 else 2)
      && run.result == Err(LookupFailed(run.calls[|run.calls| - 1]))
      && forall i :: 0 <= i < |run.calls| ==> !run.calls[i].CreateServer? && !run.calls[i].PostDnsRecord?
  {
  }

  /** The server is created from the snapshot under the generated fqdn, and the
      DNS record posted afterwards maps that fqdn to the created server's IP. */
  lemma ServerAndRecordAgree(cfg: Config, location: string, choices: string, replies: Replies)
    requires |choices| == RandomLength
    requires forall c :: c in choices ==> c in Alphabet
    ensures var run := Provision(cfg, location, choices, replies);
      var fqdn := Fqdn(Subdomain(choices), cfg.baseDomain);
      && (|run.calls| >= 3 ==>
            && run.calls[2].CreateServer?
            && run.calls[2].server.name == fqdn
            && replies.snapshot == Found(run.calls[2].server.image)
            && !replies.sshKey.Raises?
            && run.calls[2].server.sshKeys == [Answer(replies.sshKey)]
            && run.calls[2].server.location == location
            && run.calls[2].server.serverType == ServerType
            && run.calls[2].server.userData == cfg.userData)
      && (|run.calls| == 4 ==>
            && run.calls[3].PostDnsRecord?
            && replies.created.Some?
            && run.calls[3].post.body == ARecord("A", fqdn, replies.created.value.ipv4, 1, true)
            && run.calls[3].post == DnsRecordRequest(cfg, fqdn, replies.created.value.ipv4)
            && ZoneIdOf(run.calls[3].post.url) == Some(cfg.cloudflareZoneId))
  {
  }

  /** A descriptor is returned exactly when the snapshot exists, the key
      lookup does not raise, the server is created and the DNS post succeeds;
      it is then the descriptor of the created server's fqdn, which is also
      the DNS record's name, and its URLs point at that fqdn. */
  lemma DescriptorIffAllSucceed(cfg: Config, location: string, choices: string, replies: Replies)
    requires |choices| == RandomLength
    requires forall c :: c in choices ==> c in Alphabet
    ensures var run := Provision(cfg, location, choices, replies);
      && (run.result.Ok? <==>
            && replies.snapshot.Found?
            && !replies.sshKey.Raises?
            && replies.created.Some?
            && !DnsFails(replies.dns))
      && (run.result.Ok? ==>
            && run.result == Ok(DescriptorFor(run.calls[2].server.name))
            && run.result.value.fqdn == run.calls[2].server.name == run.calls[3].post.body.name
            && run.result.value.status == "provisioning"
            && HostOf(run.result.value.connectUri, BoltScheme, BoltPort) == Some(run.result.value.fqdn)
            && IsInstanceLabel(SplitHost(run.result.value.fqdn).0)
            && SplitHost(run.result.value.fqdn).1 == Some(cfg.baseDomain))
  {
    GeneratedFqdnSplits(choices, cfg.baseDomain);
  }

  /** A failed DNS post raises after the server exists: the server creation is
      among the calls, no descriptor is returned and nothing removes the server. */
  lemma DnsFailureLeavesServer(cfg: Config, location: string, choices: string, replies: Replies)
    requires |choices| == RandomLength
    requires forall c :: c in choices ==> c in Alphabet
    requires replies.snapshot.Found? && !replies.sshKey.Raises?
    requires replies.created.Some? && DnsFails(replies.dns)
    ensures var run := Provision(cfg, location, choices, replies);
      && run.result == Err(DnsRecordFailed(replies.dns))
      && |run.calls| == 4 && run.calls[2].CreateServer? && run.calls[3].PostDnsRecord?
  {
  }
}

# neo4j-template provisioning core, modelled in Dafny

The repository provisions Hetzner cloud servers that run a Neo4j instance.
Most of it is plumbing around the Hetzner SDK, Cloudflare's HTTP API, `ssh`
and `scp`. Two pieces of it have behaviour that can be stated and proved:

- `utils.py` — `get_location` resolves an optional zone and an optional
  explicit region against a fixed zone → regions table and builds the ordered
  list of candidate regions; `wait_ssh` probes a new server over SSH at most
  30 times, sleeping 10 seconds after every failed probe.
- `provision_client.py` — `provision_neo4j_for_client` looks up the golden
  snapshot, names a new instance `inst-XXXXXXXX.<base domain>`, creates the
  server from the snapshot, posts a Cloudflare A record that points the name
  at the server's IPv4 address, and returns a connection descriptor at once.

Files:

- `results.dfy` — module `Results`: `Option` (Python's `None`) and `Result`
  (a value, or the exception the code raises).
- `utils.dfy` — module `Utils`: `GetLocation` as a pure function; `WaitSsh`
  as a method whose loop is proved equal to the recursive reference `Wait`,
  with lemmas about `Wait`.
- `provision_client.dfy` — module `ProvisionClient`: the subdomain and fqdn,
  the descriptor, the DNS request, and `Provision`, the straight-line flow as
  a function of the replies of the external calls, returning the calls made in
  order and the descriptor or the failure.

How the external world enters the model:

- A probe of `wait_ssh` is one of `Echoed` (the `ssh ... echo` command
  succeeded), `NotReady` (`CalledProcessError` or `TimeoutExpired`, the two
  exceptions the loop catches) or `Uncaught` (any other exception, which
  leaves `wait_ssh`). `WaitSsh` takes `probe: nat -> Probe`, the outcome the
  k-th probe would have; a sleep is the event `Slept(10)` in the returned log.
- The eight characters that `secrets.choice` draws are the `choices`
  argument; the settings read from the environment are a `Config` value.
- The replies of the snapshot lookup and the SSH-key lookup (each `Found`,
  `NotFound` or `Raises`), the server creation (`None` when the cloud API
  raises) and the DNS post are a `Replies` value.

The model follows the code:

- An explicit region is not tried alone: it is put in front of the zone's
  other regions (utils.py:23).
- An explicit region with a missing or unknown zone is not a fallback case:
  the `locations[zone]` lookup raises `KeyError` (utils.py:17, utils.py:23),
  modelled as `Err(KeyError(zone))`.
- No code tries the candidate regions in turn; `provision_neo4j_for_client`
  takes one region and does not call `get_location`.
- The client flow neither waits for SSH nor issues certificates: it creates the
  server (the start-up script travels as user data), posts the DNS record and
  returns. A failed DNS post raises; nothing deletes the server afterwards.

## Model

| member | source | states |
|---|---|---|
| `Utils.TableDistinct` | utils.py:12-16 | every zone of the table lists at least one region and no region twice |
| `Utils.Without` | utils.py:23 | the comprehension's result holds exactly the zone's regions other than the chosen one, and is never longer than the zone's list |
| `Utils.WithoutAt` | utils.py:23 | in a duplicate-free list, filtering out the element at index i cuts exactly position i and keeps the other elements in their order |
| `Utils.WithoutAbsent` | utils.py:23 | filtering out a region that the zone does not list leaves the zone's list unchanged |
| `Utils.WithoutDistinct` | utils.py:23 | filtering a duplicate-free list keeps it duplicate-free and removes exactly one element when the region is listed, none otherwise |
| `Utils.GetLocation` | utils.py:9-24 | fails exactly when a location is given and the zone is missing or not in the table, with the KeyError naming that zone; on success the zone is in the table, the list is non-empty, and a given location heads the list with the zone returned unchanged |
| `Utils.DefaultSelection` | utils.py:17-20 | without a location, a missing or unknown zone yields ("europe", ["fsn1", "nbg1", "hel1"]) |
| `Utils.KnownZoneSelection` | utils.py:21-23 | without a location, a known zone is returned unchanged and the candidates equal its table entry, in table order |
| `Utils.CandidateOrder` | utils.py:21-23 | the head is the given location, or the zone's first region when none is given; the tail is the zone's whole list when the head is not in it, and otherwise the zone's list with the head's position cut out, in table order |
| `Utils.CandidatesDistinct` | utils.py:23 | no region appears twice; the list holds exactly the head and the zone's regions; its length is the zone size, plus one when the head is not in the zone |
| `Utils.WaitSsh` | utils.py:38-48 | the loop's outcome and its sequence of probes and sleeps equal the reference `Wait` over the outcomes of the 30 possible probes |
| `Utils.WaitCounts` | utils.py:38-48 | at most one probe per attempt; giving up means every attempt was made and failed (30 probes for `wait_ssh`); otherwise the last probe made is the first that did not fail in a caught way, so no probe follows an answer; sleeps equal failed probes, the 30th included |
| `Utils.WaitLogAlternates` | utils.py:43-45 | the log alternates probe and sleep, so each sleep follows its failed probe and lasts 10 seconds |
| `Utils.ReachableIff` | utils.py:38-42 | the wait returns True exactly when some probe answers and all earlier probes failed in a caught way |
| `Utils.ReachableIffSomeEcho` | utils.py:38-48 | when no probe raises an uncaught exception, the wait returns True iff one of the probes it may make answers (for `wait_ssh`, one of its 30) |
| `ProvisionClient.AlphabetChars` | provision_client.py:58 | the alphabet of the random part has 36 characters: exactly the lowercase ASCII letters and the digits |
| `ProvisionClient.Subdomain` | provision_client.py:58 | the subdomain is "inst-" followed by exactly the 8 chosen characters, each a lowercase letter or digit |
| `ProvisionClient.SubdomainOnto` | provision_client.py:58 | every "inst-" label with 8 lowercase letters or digits is the subdomain of its own last 8 characters |
| `ProvisionClient.InstanceLabelHasNoDot` | provision_client.py:58 | a generated subdomain contains no dot |
| `ProvisionClient.Fqdn` | provision_client.py:59 | the fqdn is the subdomain, one dot and the base domain, in that order and nothing else |
| `ProvisionClient.SplitFqdn` | provision_client.py:59 | subdomain + "." + base domain splits at its first dot back into the subdomain and the base domain |
| `ProvisionClient.GeneratedFqdnSplits` | provision_client.py:58-59 | the leftmost label of a generated fqdn is the generated subdomain and the rest is the base domain |
| `ProvisionClient.Url` | provision_client.py:84-85 | a URL is the scheme, the host, a colon and the port, in that order and nothing else |
| `ProvisionClient.UrlHost` | provision_client.py:84-85 | the host between the scheme and ":port" of a built URL is exactly the host it was built from |
| `ProvisionClient.DescriptorFor` | provision_client.py:81-88 | the descriptor has status "provisioning", user "neo4j", fqdn the given one, and its browser URL (https, 7473) and connect URI (neo4j+s, 7687) both point at that fqdn, and it carries the fixed note about the initial password |
| `ProvisionClient.DnsRecordRequest` | provision_client.py:44-46 | the record is an A record from fqdn to ip with ttl 1 and proxied, authorised by the bearer token, and the zone id is recoverable from the URL |
| `ProvisionClient.DnsFails` | provision_client.py:47-48 | the DNS post raises on a transport error and on every 4xx and 5xx status; any other status (2xx, 3xx, 600 and above) does not raise; this defines how the outside call is abstracted, case by case, rather than a derived property |
| `ProvisionClient.Answer` | provision_client.py:54-68 | a lookup that does not raise hands back the item when found and None otherwise; this defines how the outside call is abstracted rather than a derived property |
| `ProvisionClient.Provision` | provision_client.py:51-88 | one to four external calls are made, and all four when a descriptor is returned |
| `ProvisionClient.CallOrder` | provision_client.py:54-77 | the calls made are a prefix of: snapshot lookup, SSH-key lookup, server creation, DNS post; no other call occurs |
| `ProvisionClient.LookupFailureCreatesNothing` | provision_client.py:54-68 | a raising snapshot lookup ends the flow after that one call, a raising key lookup after the two lookups; the lookup's exception is what leaves, and no server is created nor DNS record posted |
| `ProvisionClient.MissingSnapshotCreatesNothing` | provision_client.py:54-56 | a missing snapshot raises after the lookup alone: no server creation and no DNS post |
| `ProvisionClient.ServerAndRecordAgree` | provision_client.py:63-77 | the server is created from the snapshot in the given region under the generated fqdn with type cx22, with the key lookup's answer as its one key and with the start-up script as user data; the later DNS post is exactly the request built for that fqdn and the created server's IPv4 address, so it maps the fqdn to that address in the configured zone with the bearer token |
| `ProvisionClient.DescriptorIffAllSucceed` | provision_client.py:54-88 | a descriptor is returned iff the snapshot exists, the key lookup does not raise, the server is created and the DNS post does not raise; it is then exactly the descriptor of the created server's name; it then names the server's fqdn, whose first label is a generated subdomain and whose rest is the base domain |
| `ProvisionClient.DnsFailureLeavesServer` | provision_client.py:47-48 | a failing DNS post raises after the server was created: no descriptor, and no call removes the server |

## Left out

- `create_snapshot.py` is not part of this model: it is a linear script of
  Hetzner and ssh/scp calls. Its SSH loop has the same shape as `wait_ssh`
  but raises instead of returning False. Its power-off, image capture and
  server deletion are commented out in the source.
- The `ssh` command line and the server IP that `wait_ssh` passes to
  `subprocess.run`, the 15-second subprocess timeout and the time a probe
  takes are not modelled; only the probe's outcome and the sleeps are.
- The Hetzner SDK, `requests.post`, `subprocess.run` and `time.sleep` are
  foreign I/O. Their results are parameters (`probe`, `Replies`) and their
  effects are the entries of the returned logs.
- `DnsFails` follows `requests`: `raise_for_status` raises for statuses
  400 to 599, and the post itself raises on a transport error. Other non-2xx
  statuses do not raise, and redirect handling inside `requests` is not modelled.
- The Hetzner client construction `Client(token=...)` is not modelled: the
  `Config.hetznerToken` field records the setting but no call reads it.
- Environment loading at import time: the tokens, the key name, the base
  domain and the zone id are `Config` fields. An unset variable (Python
  `None`, formatted as "None") is not modelled.
- `SNAPSHOT_NAME` is read from the environment inside the function body,
  once for the lookup (provision_client.py:54) and again for the error
  message (provision_client.py:56). The model reads it once, as
  `Config.snapshotName`, and uses that value both for the lookup and for
  `SnapshotNotFound`; a change of the variable between the two reads is not
  modelled.
- The SSH key lookup's result is passed into the server request as the source
  does (`[key]`, possibly `[None]`); what the cloud API then does is part of
  the `created` reply.
- `if not snapshot` is modelled as the lookup returning `None` (`NotFound`);
  other falsy values are not modelled.
- The start-up shell script is passed through as the opaque `Config.userData`;
  its contents are not interpreted.
- Progress printing is left out.

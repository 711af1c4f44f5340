/**
 The configuration `Bootstrap::new` reads: which peers are queued at once, and from which
 sources more are fetched, in which order.
 */
module Configuration {
  import opened Wrappers
  import opened Addresses
  import opened BootstrapMachine

  const MAINNET_CONTACTS: seq<string> := [
    "https://sn-testnet.s3.eu-west-2.amazonaws.com/network-contacts",
    "http://159.89.251.80/bootstrap_cache.json",
    "http://159.65.210.89/bootstrap_cache.json",
    "http://159.223.246.45/bootstrap_cache.json",
    "http://139.59.201.153/bootstrap_cache.json",
    "http://139.59.200.27/bootstrap_cache.json"
  ]

  const ALPHANET_CONTACTS: seq<string> := [
    "http://188.166.133.208/bootstrap_cache.json",
    "http://188.166.133.125/bootstrap_cache.json",
    "http://178.128.137.64/bootstrap_cache.json",
    "http://159.223.242.7/bootstrap_cache.json",
    "http://143.244.197.147/bootstrap_cache.json"
  ]

  datatype Error = NoBootstrapPeersFound | FailedToParseUrl

  datatype NetworkId = Mainnet | Alphanet | OtherNetwork

  datatype BootstrapConfig = BootstrapConfig(
    first: bool,
    local: bool,
    disableEnvPeers: bool,
    disableCacheReading: bool,
    initialPeers: seq<Multiaddr>,
    networkContactsUrl: seq<string>,
    maxConcurrentDials: nat,
    maxContactedPeersBeforeTermination: nat)

  /** The parts of the process environment `new` reads: the ANT_PEERS entries that are multiaddresses,
      the network id, and the URL parser. */
  datatype Host = Host(antPeers: seq<Multiaddr>, network: NetworkId, parseUrl: string -> Option<Url>)

  // ---------------------------------------------------------------- configuration

  /** All the URLs, or nothing if one of them is malformed. */
  function ParseAll(parse: string -> Option<Url>, urls: seq<string>): Option<seq<Url>>
  {
    if urls == [] then Some([])
    else
      var front := ParseAll(parse, Front(urls));
      if front.None? || parse(Last(urls)).None? then None else Some(front.value + [parse(Last(urls)).value])
  }

  /** The well-formed ones of the URLs. */
  function ParseSome(parse: string -> Option<Url>, urls: seq<string>): seq<Url>
  {
    PickOut(urls, parse)
  }

  /** Every URL is parsed, in order; one that is malformed spoils them all. */
  lemma {:induction false} ParseAllExactly(parse: string -> Option<Url>, urls: seq<string>)
    ensures ParseAll(parse, urls).None? <==> exists i :: 0 <= i < |urls| && parse(urls[i]).None?
    ensures ParseAll(parse, urls).Some? ==>
              var parsed := ParseAll(parse, urls).value;
              |parsed| == |urls| && forall i | 0 <= i < |urls| :: parse(urls[i]) == Some(parsed[i])
  {
    if urls != [] {
      ParseAllExactly(parse, Front(urls));
      if i :| 0 <= i < |Front(urls)| && parse(Front(urls)[i]).None? {
        assert parse(urls[i]).None?;
      }
      assert forall i | 0 <= i < |urls| - 1 :: urls[i] == Front(urls)[i];
    }
  }

  /** `ContactsProgress::new`: an empty endpoint list is no progress at all. */
  function ContactsProgress(urls: seq<Url>): Option<seq<Url>>
  {
    if urls == [] then None else Some(urls)
  }

  /** The built-in endpoints of a network. */
  function StaticContacts(network: NetworkId): seq<string>
  {
    match network
    case Mainnet => MAINNET_CONTACTS
    case Alphanet => ALPHANET_CONTACTS
    case OtherNetwork => []
  }

  function BuildContactsProgress(config: BootstrapConfig, host: Host): Result<Option<seq<Url>>, Error>
  {
    if config.first || config.local then Ok(None)
    else if config.networkContactsUrl != [] then
      match ParseAll(host.parseUrl, config.networkContactsUrl)
      case Some(urls) => Ok(ContactsProgress(urls))
      case None => Err(FailedToParseUrl)
    else Ok(ContactsProgress(ParseSome(host.parseUrl, StaticContacts(host.network))))
  }

  /** The crafted form of an address, which must name a peer. */
  function CraftedContact(addr: Multiaddr): Option<Multiaddr>
  {
    Crafted(addr, false)
  }

  /** The crafted forms of the addresses that have one. */
  function CraftAll(addrs: seq<Multiaddr>): seq<Multiaddr>
  {
    PickOut(addrs, CraftedContact)
  }

  lemma {:induction false} CraftAllIsCrafted(addrs: seq<Multiaddr>)
    ensures forall a | a in CraftAll(addrs) :: IsCrafted(a) && GetPeerId(a).Some?
  {
    if addrs != [] {
      CraftAllIsCrafted(Front(addrs));
      if Crafted(Last(addrs), false).Some? {
        CraftedShape(Last(addrs), false);
      }
    }
  }

  function InitialQueue(config: BootstrapConfig, host: Host): seq<Multiaddr>
  {
    if config.first then []
    else (if config.disableEnvPeers then [] else CraftAll(host.antPeers)) + CraftAll(config.initialPeers)
  }

  function SetupOf(config: BootstrapConfig, contacts: Option<seq<Url>>): Setup
  {
    Setup(config.maxConcurrentDials, config.maxContactedPeersBeforeTermination,
          (if config.first || config.disableCacheReading then [] else [CacheFile]) + EndpointsOf(Urls(contacts)))
  }

  // ---------------------------------------------------------------- what the configuration means

  /** The endpoints of a node: none for a first or a local one; else all those configured, in order, or if there
      are none the well-formed ones of the network's own list, in order. */
  ghost predicate EndpointsMeant(config: BootstrapConfig, host: Host, endpoints: seq<Url>)
  {
    if config.first || config.local then endpoints == []
    else if config.networkContactsUrl != [] then
      && |endpoints| == |config.networkContactsUrl|
      && forall i | 0 <= i < |endpoints| :: host.parseUrl(config.networkContactsUrl[i]) == Some(endpoints[i])
    else PicksAll(StaticContacts(host.network), host.parseUrl, endpoints)
  }

  /** The sources of a node: the cache, unless it is not to be read, then the endpoints. */
  predicate SourcesAre(config: BootstrapConfig, endpoints: seq<Url>, sources: seq<Source>)
  {
    var cached := if config.first || config.disableCacheReading then 0 else 1;
    && |sources| == cached + |endpoints|
    && (cached == 1 ==> sources[0] == CacheFile)
    && forall i | 0 <= i < |endpoints| :: sources[cached + i] == Endpoint(endpoints[i])
  }

  ghost predicate SourcesMeant(config: BootstrapConfig, host: Host, sources: seq<Source>)
  {
    exists endpoints :: EndpointsMeant(config, host, endpoints) && SourcesAre(config, endpoints, sources)
  }

  /** A configured URL that is used is malformed. */
  ghost predicate SomeUrlMalformed(config: BootstrapConfig, host: Host)
  {
    && !config.first && !config.local
    && exists i :: 0 <= i < |config.networkContactsUrl| && host.parseUrl(config.networkContactsUrl[i]).None?
  }

  lemma ConfiguredSources(config: BootstrapConfig, host: Host)
    ensures BuildContactsProgress(config, host).Err? <==> SomeUrlMalformed(config, host)
    ensures BuildContactsProgress(config, host).Ok? ==>
              SourcesMeant(config, host, SetupOf(config, BuildContactsProgress(config, host).value).sources)
  {
    ParseAllExactly(host.parseUrl, config.networkContactsUrl);
    var progress := BuildContactsProgress(config, host);
    if progress.Ok? {
      ConfiguredEndpoints(config, host);
      SourcesFollow(config, progress.value);
    }
  }

  lemma ConfiguredEndpoints(config: BootstrapConfig, host: Host)
    requires BuildContactsProgress(config, host).Ok?
    ensures EndpointsMeant(config, host, Urls(BuildContactsProgress(config, host).value))
  {
    ParseAllExactly(host.parseUrl, config.networkContactsUrl);
    PickOutPicks(StaticContacts(host.network), host.parseUrl);
  }

  lemma SourcesFollow(config: BootstrapConfig, contacts: Option<seq<Url>>)
    ensures SourcesAre(config, Urls(contacts), SetupOf(config, contacts).sources)
  {
  }

  /** The addresses a node begins with: the crafted form of every ANT_PEERS entry that has one, unless these are
      not to be used, then that of every configured peer, each in order; none for a first node. */
  ghost predicate QueueMeant(config: BootstrapConfig, host: Host, queue: seq<Multiaddr>)
  {
    exists k :: 0 <= k <= |queue| && QueueParts(config, host, queue[..k], queue[k..])
  }

  ghost predicate QueueParts(config: BootstrapConfig, host: Host, env: seq<Multiaddr>, peers: seq<Multiaddr>)
  {
    && (if config.first || config.disableEnvPeers then env == [] else PicksAll(host.antPeers, CraftedContact, env))
    && (if config.first then peers == [] else PicksAll(config.initialPeers, CraftedContact, peers))
  }

  lemma InitialQueueMeant(config: BootstrapConfig, host: Host)
    ensures QueueMeant(config, host, InitialQueue(config, host))
  {
    PickOutPicks(host.antPeers, CraftedContact);
    PickOutPicks(config.initialPeers, CraftedContact);
    var queue := InitialQueue(config, host);
    var k := if config.first || config.disableEnvPeers then 0 else |CraftAll(host.antPeers)|;
    assert queue[..k] == if k == 0 then [] else CraftAll(host.antPeers);
    assert !config.first ==> queue[k..] == CraftAll(config.initialPeers);
    assert !(config.first || config.disableEnvPeers) ==> queue[..k] == CraftAll(host.antPeers);
    assert QueueParts(config, host, queue[..k], queue[k..]);
  }
}

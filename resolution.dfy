/** The resolution chain of `resolveContent` in limo-hijacker.js, as pure
    functions over the two caches, and the properties it has.

    The external clients are abstract: `Clients` carries them as total
    functions, so every lemma holds for all clients that answer each argument
    the same way on every call. */
module Resolution {
  import opened Wrappers

  type Byte = bv8

  /** The `{protocolType, decoded}` record of an ENS content-hash lookup. */
  datatype ContentHash = ContentHash(protocolType: string, decoded: string)

  /** An abstract content identifier, as returned inside an IPNS resolution. */
  datatype Cid = Cid(raw: string)

  /** The part of `ipns.resolve`'s result the resolver uses. */
  datatype IpnsResult = IpnsResult(cid: Cid)

  /** A response of the verified fetch: its status and the bytes of its body. */
  datatype Response = Response(status: int, body: seq<Byte>)

  /** The external collaborators, bound once per call.
      - `ens`: `ensClient.getContentHashRecord({name})`; `None` is the `null`
        the client gives for a name without a content hash.
      - `ipns`: `ipns.resolve(peerIdFromString(id))`; a malformed id rejects too.
      - `cidV1`: `cid.toV1().toString()`.
      - `fetch`: `verifiedFetch(locator)`. */
  datatype Clients = Clients(
    ens: string -> Settled<Option<ContentHash>>,
    ipns: string -> Settled<IpnsResult>,
    cidV1: Cid -> string,
    fetch: string -> Settled<Response>)

  /** One call into an external client; the trace of a resolution lists them in order. */
  datatype Call = EnsLookup(name: string) | IpnsResolve(id: string) | Fetch(locator: string)

  /** The parsed request URL. It is an object: a fresh one is made per call. */
  class Url {
    const hostname: string
    const pathname: string

    constructor (hostname: string, pathname: string)
      ensures this.hostname == hostname && this.pathname == pathname
    {
      this.hostname := hostname;
      this.pathname := pathname;
    }
  }

  /** A key of the JavaScript `Map` used as ENS cache. Keys compare by value for
      strings and by identity for objects. */
  datatype EnsKey = StringKey(name: string) | ObjectKey(obj: object)

  type EnsCache = map<EnsKey, ContentHash>
  type IpnsCache = map<string, IpnsResult>

  /** Why the promise of `resolveContent` rejects. */
  datatype Failure =
    | EnsRejected       // the ENS client rejects
    | NoContentHash     // destructuring the `null` record throws
    | IpnsRejected      // peer-id parsing or the IPNS resolver fails
    | FetchRejected     // the verified fetch rejects

  /** What `resolveContent` settles with. */
  datatype Resolution =
    | Pair(locator: string, response: Response)   // the array `[fullContentPath, response]`
    | BareResponse(status: int, text: string)     // `new Response(text)`, not an array
    | Failed(failure: Failure)                    // the promise rejects

  /** The outcome of one resolution: its result, the caches afterwards and the
      calls made into the external clients, in order. */
  datatype Step = Step(result: Resolution, ensCache: EnsCache, ipnsCache: IpnsCache, calls: seq<Call>)

  const LimoSuffix: string := ".limo"

  /** The status of a `Response` built from a body alone. */
  const DefaultStatus: int := 200

  const UnsupportedPrefix: string := "unsupported protocol type: "

  /** The ENS name of an `*.eth.limo` host: `hostname.slice(0, -".limo".length)`.
      The suffix itself is not checked; a host shorter than the suffix gives "". */
  function EnsName(hostname: string): (name: string)
    ensures |hostname| >= |LimoSuffix| ==>
              |name| == |hostname| - |LimoSuffix| && name + hostname[|name|..] == hostname
    ensures |hostname| < |LimoSuffix| ==> name == []
  {
    if |hostname| >= |LimoSuffix| then hostname[..|hostname| - |LimoSuffix|] else []
  }

  /** Stripping undoes appending the proxy suffix: `alice.eth.limo` names `alice.eth`. */
  lemma EnsNameOfLimoHost(name: string)
    ensures EnsName(name + LimoSuffix) == name
  {
    var host := name + LimoSuffix;
    assert host[..|name|] == name;
  }

  /** Only `ipfs` and `ipns` records are resolved further. */
  predicate Supported(protocolType: string)
  {
    protocolType == "ipfs" || protocolType == "ipns"
  }

  /** The diagnostic text of the unsupported-protocol response. */
  function UnsupportedMessage(protocolType: string): (text: string)
    ensures |text| == |UnsupportedPrefix| + |protocolType|
    ensures text[..|UnsupportedPrefix|] == UnsupportedPrefix
    ensures text[|UnsupportedPrefix|..] == protocolType
  {
    UnsupportedPrefix + protocolType
  }

  /** The content locator `${protocolType}://${decoded}${pathname}`; its three
      parts can be read back from it. */
  function Locator(protocolType: string, decoded: string, pathname: string): (loc: string)
    ensures |loc| == |protocolType| + 3 + |decoded| + |pathname|
    ensures loc[..|protocolType| + 3] == protocolType + "://"
    ensures loc[|protocolType| + 3..|protocolType| + 3 + |decoded|] == decoded
    ensures loc[|protocolType| + 3 + |decoded|..] == pathname
  {
    protocolType + "://" + decoded + pathname
  }

  /** An `ipfs` locator is the `ipfs://` scheme followed by the payload and the path. */
  lemma IpfsLocator(payload: string, pathname: string)
    ensures Locator("ipfs", payload, pathname) == "ipfs://" + payload + pathname
  {
    assert "ipfs" + "://" == "ipfs://";
  }

  /** `Map.prototype.get`: the value under `key`, or nothing. */
  function Get<K, V>(m: map<K, V>, key: K): (r: Option<V>)
    ensures r.Some? <==> key in m
    ensures r.Some? ==> r.value == m[key]
  {
    if key in m then Some(m[key]) else None
  }

  /** True when every key of the ENS cache is a string: the cache is only ever
      written under the stripped name. */
  ghost predicate StringKeysOnly(ens: EnsCache)
  {
    forall k :: k in ens ==> k.StringKey?
  }

  /** Build the locator and fetch it: the last step of `resolveContent`.
      Exactly one fetch is made, of the locator, and the caches are untouched;
      the result pairs the locator with the fetched response, or rejects when
      the fetch rejects. */
  function FetchStep(c: Clients, protocolType: string, decoded: string, pathname: string,
                     ens: EnsCache, ipns: IpnsCache, calls: seq<Call>): (s: Step)
    ensures var locator := Locator(protocolType, decoded, pathname);
            && s.calls == calls + [Fetch(locator)]
            && s.ensCache == ens && s.ipnsCache == ipns
            && (s.result.Pair? <==> c.fetch(locator).Fulfilled?)
            && (s.result.Pair? ==> s.result.locator == locator && c.fetch(locator) == Fulfilled(s.result.response))
            && (!s.result.Pair? ==> s.result == Failed(FetchRejected))
  {
    var locator := Locator(protocolType, decoded, pathname);
    var calls' := calls + [Fetch(locator)];
    match c.fetch(locator)
    case Rejected => Step(Failed(FetchRejected), ens, ipns, calls')
    case Fulfilled(response) => Step(Pair(locator, response), ens, ipns, calls')
  }

  /** The `ipns` branch: one dereference through the IPNS cache or the resolver,
      then the locator is an `ipfs` one on the CIDv1 string of the result. */
  function IpnsStep(c: Clients, id: string, pathname: string,
                    ens: EnsCache, ipns: IpnsCache, calls: seq<Call>): (s: Step)
    ensures s.ensCache == ens
    ensures |s.calls| > |calls| && s.calls[..|calls|] == calls
    ensures IpnsResolve(id) in s.calls[|calls|..] <==> id !in ipns
    ensures forall k :: k in ipns ==> k in s.ipnsCache && s.ipnsCache[k] == ipns[k]
    ensures id in s.ipnsCache <==> id in ipns || c.ipns(id).Fulfilled?
    ensures s.result.Pair? ==>
              id in s.ipnsCache && s.result.locator == Locator("ipfs", c.cidV1(s.ipnsCache[id].cid), pathname)
    ensures id !in ipns && c.ipns(id).Rejected? ==> s.result == Failed(IpnsRejected) && s.ipnsCache == ipns
  {
    var pointer: Settled<IpnsResult> := if id in ipns then Fulfilled(ipns[id]) else c.ipns(id);
    var calls' := if id in ipns then calls else calls + [IpnsResolve(id)];
    match pointer
    case Rejected => Step(Failed(IpnsRejected), ens, ipns, calls')
    case Fulfilled(result) =>
      var s := FetchStep(c, "ipfs", c.cidV1(result.cid), pathname, ens, ipns[id := result], calls');
      assert s.calls[|calls|..] == calls'[|calls|..] + [Fetch(Locator("ipfs", c.cidV1(result.cid), pathname))];
      s
  }

  /** One run of `resolveContent` for the parsed URL `url`, from the caches
      `ens` and `ipns`. The ENS cache is read under the URL object and written
      under the name string. */
  function Resolve(c: Clients, ens: EnsCache, ipns: IpnsCache, url: Url): (s: Step)
    ensures StringKeysOnly(ens) ==> StringKeysOnly(s.ensCache)
    ensures forall k :: k in ens && k != StringKey(EnsName(url.hostname)) ==> k in s.ensCache && s.ensCache[k] == ens[k]
    ensures forall id :: id in ipns ==> id in s.ipnsCache && s.ipnsCache[id] == ipns[id]
    ensures forall id :: id in ipns ==> IpnsResolve(id) !in s.calls
    ensures |s.calls| <= 3
  {
    var name := EnsName(url.hostname);
    var cached := Get(ens, ObjectKey(url));
    var lookup: Settled<Option<ContentHash>> := if cached.Some? then Fulfilled(cached) else c.ens(name);
    var calls := if cached.Some? then [] else [EnsLookup(name)];
    match lookup
    case Rejected => Step(Failed(EnsRejected), ens, ipns, calls)
    case Fulfilled(None) => Step(Failed(NoContentHash), ens, ipns, calls)
    case Fulfilled(Some(record)) =>
      var ens' := ens[StringKey(name) := record];
      if !Supported(record.protocolType) then
        Step(BareResponse(DefaultStatus, UnsupportedMessage(record.protocolType)), ens', ipns, calls)
      else if record.protocolType == "ipns" then
        IpnsStep(c, record.decoded, url.pathname, ens', ipns, calls)
      else
        FetchStep(c, record.protocolType, record.decoded, url.pathname, ens', ipns, calls)
  }

  // ---------------------------------------------------------------------------
  // Properties of one resolution
  // ---------------------------------------------------------------------------

  /** The ENS cache never answers: with only string keys in it, the lookup under
      the URL object misses and the ENS client is the first call every time. */
  lemma EnsCacheNeverHit(c: Clients, ens: EnsCache, ipns: IpnsCache, url: Url)
    requires StringKeysOnly(ens)
    ensures var s := Resolve(c, ens, ipns, url);
            |s.calls| >= 1 && s.calls[0] == EnsLookup(EnsName(url.hostname))
  {
    assert ObjectKey(url) !in ens;
  }

  /** A found record is stored under the stripped name before the protocol is
      checked, so unsupported records are cached too; nothing else in the ENS
      cache changes. A failed lookup leaves both caches as they were. */
  lemma EnsRecordCached(c: Clients, ens: EnsCache, ipns: IpnsCache, url: Url)
    requires StringKeysOnly(ens)
    ensures var name := EnsName(url.hostname);
            var s := Resolve(c, ens, ipns, url);
            match c.ens(name)
            case Fulfilled(Some(record)) => s.ensCache == ens[StringKey(name) := record]
            case _ => s.ensCache == ens && s.ipnsCache == ipns && s.result.Failed?
  {
    assert ObjectKey(url) !in ens;
  }

  /** A record whose protocol is neither `ipfs` nor `ipns` yields the diagnostic
      response, and neither the IPNS resolver nor the fetch is called. */
  lemma UnsupportedProtocolStopsEarly(c: Clients, ens: EnsCache, ipns: IpnsCache, url: Url, record: ContentHash)
    requires StringKeysOnly(ens)
    requires c.ens(EnsName(url.hostname)) == Fulfilled(Some(record))
    requires !Supported(record.protocolType)
    ensures var s := Resolve(c, ens, ipns, url);
            && s.result == BareResponse(200, "unsupported protocol type: " + record.protocolType)
            && s.calls == [EnsLookup(EnsName(url.hostname))]
            && s.ipnsCache == ipns
  {
    assert ObjectKey(url) !in ens;
  }

  /** The protocol check decides the branch: the diagnostic response comes
      exactly from a record that is neither `ipfs` nor `ipns`; the resolution
      ends in a fetch exactly when the record is supported and, for `ipns`, the
      id was cached or the resolver answered; only an `ipns` record reaches the
      resolver. */
  lemma ProtocolDispatch(c: Clients, ens: EnsCache, ipns: IpnsCache, url: Url, record: ContentHash)
    requires StringKeysOnly(ens)
    requires c.ens(EnsName(url.hostname)) == Fulfilled(Some(record))
    ensures var s := Resolve(c, ens, ipns, url);
            var id := record.decoded;
            && |s.calls| >= 1
            && (s.result.BareResponse? <==> !Supported(record.protocolType))
            && (s.calls[|s.calls| - 1].Fetch? <==>
                  Supported(record.protocolType)
                  && (record.protocolType == "ipfs" || id in ipns || c.ipns(id).Fulfilled?))
            && (record.protocolType != "ipns" ==> forall call :: call in s.calls ==> !call.IpnsResolve?)
  {
    assert ObjectKey(url) !in ens;
  }

  /** An `ipfs` record is fetched as is: exactly one fetch, of
      `ipfs://<decoded><pathname>`, and the IPNS cache is untouched. */
  lemma IpfsRecordFetchedDirectly(c: Clients, ens: EnsCache, ipns: IpnsCache, url: Url, decoded: string)
    requires StringKeysOnly(ens)
    requires c.ens(EnsName(url.hostname)) == Fulfilled(Some(ContentHash("ipfs", decoded)))
    ensures var s := Resolve(c, ens, ipns, url);
            var locator := "ipfs://" + decoded + url.pathname;
            && s.calls == [EnsLookup(EnsName(url.hostname)), Fetch(locator)]
            && s.ipnsCache == ipns
            && s.result == (match c.fetch(locator)
                            case Fulfilled(response) => Pair(locator, response)
                            case Rejected => Failed(FetchRejected))
  {
    assert ObjectKey(url) !in ens;
    IpfsLocator(decoded, url.pathname);
  }

  /** An `ipns` record is dereferenced once. The resolver is called exactly when
      the IPNS cache has no entry for the id; afterwards the cache holds the
      result under the id, and the one fetch is of `ipfs://<CIDv1><pathname>`. */
  lemma IpnsRecordDereferencedOnce(c: Clients, ens: EnsCache, ipns: IpnsCache, url: Url, id: string)
    requires StringKeysOnly(ens)
    requires c.ens(EnsName(url.hostname)) == Fulfilled(Some(ContentHash("ipns", id)))
    ensures var s := Resolve(c, ens, ipns, url);
            var name := EnsName(url.hostname);
            var pointer: Settled<IpnsResult> := if id in ipns then Fulfilled(ipns[id]) else c.ipns(id);
            var looked := if id in ipns then [EnsLookup(name)] else [EnsLookup(name), IpnsResolve(id)];
            match pointer
            case Rejected =>
              s.result == Failed(IpnsRejected) && s.ipnsCache == ipns && s.calls == looked
            case Fulfilled(result) =>
              var locator := "ipfs://" + c.cidV1(result.cid) + url.pathname;
              && s.ipnsCache == ipns[id := result]
              && s.calls == looked + [Fetch(locator)]
              && s.result == (match c.fetch(locator)
                              case Fulfilled(response) => Pair(locator, response)
                              case Rejected => Failed(FetchRejected))
  {
    assert ObjectKey(url) !in ens;
    var pointer: Settled<IpnsResult> := if id in ipns then Fulfilled(ipns[id]) else c.ipns(id);
    if pointer.Fulfilled? {
      IpfsLocator(c.cidV1(pointer.value.cid), url.pathname);
    }
  }

  /** Whatever the record, a resolution that settles with a pair made exactly
      one fetch, its last call, of the locator it returns; that locator is an
      `ipfs` one ending in the request's pathname. */
  lemma PairComesFromOneFetch(c: Clients, ens: EnsCache, ipns: IpnsCache, url: Url)
    requires StringKeysOnly(ens)
    ensures var s := Resolve(c, ens, ipns, url);
            s.result.Pair? ==>
              && |s.calls| >= 2
              && s.calls[|s.calls| - 1] == Fetch(s.result.locator)
              && (forall i :: 0 <= i < |s.calls| - 1 ==> !s.calls[i].Fetch?)
              && c.fetch(s.result.locator) == Fulfilled(s.result.response)
              && exists payload :: s.result.locator == "ipfs://" + payload + url.pathname
  {
    var name := EnsName(url.hostname);
    var s := Resolve(c, ens, ipns, url);
    assert ObjectKey(url) !in ens;
    if s.result.Pair? {
      var record := c.ens(name).value.value;
      if record.protocolType == "ipns" {
        var id := record.decoded;
        var result := if id in ipns then ipns[id] else c.ipns(id).value;
        assert s.result.locator == "ipfs://" + c.cidV1(result.cid) + url.pathname;
      } else {
        assert s.result.locator == "ipfs://" + record.decoded + url.pathname;
      }
    }
  }

  // ---------------------------------------------------------------------------
  // Properties of repeated resolutions
  // ---------------------------------------------------------------------------

  /** The caches after resolving each URL of `urls` in turn, from `ens` and
      `ipns`, one call at a time, and all the external calls made. The ENS
      cache keeps only string keys and the IPNS cache never loses or changes
      an entry. */
  datatype Run = Run(ensCache: EnsCache, ipnsCache: IpnsCache, calls: seq<Call>)

  function ResolveEach(c: Clients, ens: EnsCache, ipns: IpnsCache, urls: seq<Url>): (r: Run)
    ensures StringKeysOnly(ens) ==> StringKeysOnly(r.ensCache)
    ensures forall id :: id in ipns ==> id in r.ipnsCache && r.ipnsCache[id] == ipns[id]
    ensures |r.calls| <= 3 * |urls|
    decreases |urls|
  {
    if urls == [] then Run(ens, ipns, [])
    else
      var s := Resolve(c, ens, ipns, urls[0]);
      var rest := ResolveEach(c, s.ensCache, s.ipnsCache, urls[1..]);
      Run(rest.ensCache, rest.ipnsCache, s.calls + rest.calls)
  }

  /** An id already in the IPNS cache is never handed to the resolver again,
      however many resolutions follow, and its cached result stays. */
  lemma {:induction false} CachedIdNeverResolved(c: Clients, ens: EnsCache, ipns: IpnsCache,
                                                 urls: seq<Url>, id: string)
    requires id in ipns
    ensures var r := ResolveEach(c, ens, ipns, urls);
            IpnsResolve(id) !in r.calls && id in r.ipnsCache && r.ipnsCache[id] == ipns[id]
    decreases |urls|
  {
    if urls != [] {
      var s := Resolve(c, ens, ipns, urls[0]);
      CachedIdNeverResolved(c, s.ensCache, s.ipnsCache, urls[1..], id);
    }
  }

  /** Once a resolution has dereferenced an IPNS id (from the cache or the
      resolver), no later resolution, of any host, calls the resolver for that
      id again. */
  lemma IpnsIdNeverResolvedAgain(c: Clients, ens: EnsCache, ipns: IpnsCache,
                                 url: Url, later: seq<Url>, id: string)
    requires StringKeysOnly(ens)
    requires c.ens(EnsName(url.hostname)) == Fulfilled(Some(ContentHash("ipns", id)))
    requires id in ipns || c.ipns(id).Fulfilled?
    ensures var s := Resolve(c, ens, ipns, url);
            var r := ResolveEach(c, s.ensCache, s.ipnsCache, later);
            IpnsResolve(id) !in r.calls && id in r.ipnsCache
  {
    var s := Resolve(c, ens, ipns, url);
    IpnsRecordDereferencedOnce(c, ens, ipns, url, id);
    assert id in s.ipnsCache;
    CachedIdNeverResolved(c, s.ensCache, s.ipnsCache, later, id);
  }

  /** Resolving the same host and path twice in a row, with clients that answer
      the same way each time (in particular an ENS record that does not change
      between the two calls), gives the same locator both times: the second
      ENS lookup returns the same record, and a cached IPNS result is the one
      the resolver gave. */
  lemma RepeatedResolutionSameLocator(c: Clients, ens: EnsCache, ipns: IpnsCache,
                                                         url1: Url, url2: Url)
    requires StringKeysOnly(ens)
    requires url1.hostname == url2.hostname && url1.pathname == url2.pathname
    ensures var s1 := Resolve(c, ens, ipns, url1);
            var s2 := Resolve(c, s1.ensCache, s1.ipnsCache, url2);
            s1.result.Pair? ==> s2.result.Pair? && s2.result.locator == s1.result.locator
  {
    var name := EnsName(url1.hostname);
    var s1 := Resolve(c, ens, ipns, url1);
    var s2 := Resolve(c, s1.ensCache, s1.ipnsCache, url2);
    if s1.result.Pair? {
      assert ObjectKey(url1) !in ens;
      assert ObjectKey(url2) !in s1.ensCache;
      var record := c.ens(name).value.value;
      if record.protocolType == "ipns" {
        IpnsRecordDereferencedOnce(c, ens, ipns, url1, record.decoded);
        IpnsRecordDereferencedOnce(c, s1.ensCache, s1.ipnsCache, url2, record.decoded);
      } else {
        IpfsRecordFetchedDirectly(c, ens, ipns, url1, record.decoded);
        IpfsRecordFetchedDirectly(c, s1.ensCache, s1.ipnsCache, url2, record.decoded);
      }
    }
  }
}

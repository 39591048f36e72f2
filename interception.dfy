/** `hijack` in limo-hijacker.js: the response filter of one intercepted
    request, what its `onstart` and `ondata` handlers do to it, and how the
    session ends for each way `resolveContent` can settle. */
module Interception {
  import opened Wrappers
  import opened Resolution
  import opened Resolver

  /** The response filter of one request (`filterResponseData`): the chunks
      written to it, in order, and whether it is closed. */
  class Filter {
    var written: seq<seq<Byte>>
    var closed: bool

    /** A new filter is open and empty. */
    constructor ()
      ensures written == [] && !closed
    {
      written := [];
      closed := false;
    }

    /** `filter.write(data)`: appends one chunk to the substituted body. */
    method Write(data: seq<Byte>)
      requires !closed
      modifies this
      ensures written == old(written) + [data] && !closed
    {
      written := written + [data];
    }

    /** `filter.close()`: ends the substituted body. */
    method Close()
      modifies this
      ensures closed && written == old(written)
    {
      closed := true;
    }
  }

  /** How the session of one request ends. */
  datatype SessionEnd =
    | Substituted(body: seq<Byte>)   // the body written once, then the filter closed
    | ClosedEmpty                    // the filter closed with nothing written
    | LeftOpen                       // the filter never closed

  /** The filter is in the state that `end` describes. */
  ghost predicate Shows(f: Filter, end: SessionEnd)
    reads f
  {
    match end
    case Substituted(body) => f.written == [body] && f.closed
    case ClosedEmpty => f.written == [] && f.closed
    case LeftOpen => f.written == [] && !f.closed
  }

  /** What the `then` callback of `onstart` does with what `resolveContent`
      settles with. A pair with status 200 is written and closed; any other
      pair is closed empty. The bare diagnostic response cannot be
      destructured as a pair, so the callback throws before touching the
      filter; a rejected resolution has no handler at all. */
  function Settle(r: Resolution): (end: SessionEnd)
    ensures end.Substituted? <==> r.Pair? && r.response.status == 200
    ensures end.Substituted? ==> end.body == r.response.body
    ensures end.ClosedEmpty? <==> r.Pair? && r.response.status != 200
    ensures end.LeftOpen? <==> !r.Pair?
  {
    match r
    case Pair(_, response) => if response.status == 200 then Substituted(response.body) else ClosedEmpty
    case BareResponse(_, _) => LeftOpen
    case Failed(_) => LeftOpen
  }

  /** The handlers `hijack` installs on one request's filter. */
  class Session {
    const hostname: string
    const pathname: string
    const filter: Filter

    constructor (hostname: string, pathname: string)
      ensures this.hostname == hostname && this.pathname == pathname
      ensures fresh(filter) && filter.written == [] && !filter.closed
    {
      this.hostname := hostname;
      this.pathname := pathname;
      filter := new Filter();
    }

    /** `filter.onstart`: resolve the request's URL, then write and close, or
        only close, according to the response. The resolver's caches and call
        trace advance exactly as one `Resolve` step on the fresh URL object. */
    method OnStart(resolver: ContentResolver, c: Clients) returns (ghost url: Url)
      requires resolver.Valid()
      requires filter.written == [] && !filter.closed
      modifies resolver, filter
      ensures resolver.Valid()
      ensures fresh(url) && url.hostname == hostname && url.pathname == pathname
      ensures var s := Resolve(c, old(resolver.ensCache), old(resolver.ipnsCache), url);
              && resolver.ensCache == s.ensCache
              && resolver.ipnsCache == s.ipnsCache
              && resolver.calls == old(resolver.calls) + s.calls
              && Shows(filter, Settle(s.result))
    {
      var result;
      result, url := resolver.ResolveContent(c, hostname, pathname);
      match result {
        case Pair(fullContentPath, response) =>
          if response.status == 200 {
            filter.Write(response.body);
            filter.Close();
          } else {
            filter.Close();
          }
        case BareResponse(_, _) =>
          // `[fullContentPath, response]` throws on a Response: nothing runs
        case Failed(_) =>
          // the rejection is not handled: nothing runs
      }
    }

    /** `filter.ondata`: the chunk from eth.limo is dropped. */
    method OnData(chunk: seq<Byte>)
      ensures unchanged(filter)
    {
    }
  }

  /** `hijack(details)`: attaches a fresh, open, empty filter to the request and
      lets the request go on (`{canceled: false}`). */
  method Hijack(hostname: string, pathname: string) returns (canceled: bool, session: Session)
    ensures !canceled
    ensures fresh(session) && fresh(session.filter)
    ensures session.hostname == hostname && session.pathname == pathname
    ensures Shows(session.filter, LeftOpen)
  {
    session := new Session(hostname, pathname);
    canceled := false;
  }

  // ---------------------------------------------------------------------------
  // How sessions end
  // ---------------------------------------------------------------------------

  /** Bytes are written only when the resolution fetched them: the body of a
      substituted session is the body of a status-200 answer of the fetch
      client to the one locator fetched, and that fetch was made. */
  lemma SubstitutedBodyWasFetched(c: Clients, ens: EnsCache, ipns: IpnsCache, url: Url)
    requires StringKeysOnly(ens)
    ensures var s := Resolve(c, ens, ipns, url);
            Settle(s.result).Substituted? ==>
              exists locator :: Fetch(locator) in s.calls
                             && c.fetch(locator) == Fulfilled(Response(200, Settle(s.result).body))
  {
    var s := Resolve(c, ens, ipns, url);
    PairComesFromOneFetch(c, ens, ipns, url);
    if s.result.Pair? {
      assert s.calls[|s.calls| - 1] == Fetch(s.result.locator);
    }
  }

  /** A record of an unsupported protocol leaves the filter open: the
      diagnostic response is not a pair, and no fetch is made. */
  lemma UnsupportedProtocolLeavesFilterOpen(c: Clients, ens: EnsCache, ipns: IpnsCache, url: Url, record: ContentHash)
    requires StringKeysOnly(ens)
    requires c.ens(EnsName(url.hostname)) == Fulfilled(Some(record))
    requires !Supported(record.protocolType)
    ensures var s := Resolve(c, ens, ipns, url);
            Settle(s.result) == LeftOpen && forall call :: call in s.calls ==> !call.Fetch?
  {
    UnsupportedProtocolStopsEarly(c, ens, ipns, url, record);
  }

  /** A failing ENS lookup, or a name without a content hash, leaves the filter
      open: the promise rejects and nothing handles it. */
  lemma EnsFailureLeavesFilterOpen(c: Clients, ens: EnsCache, ipns: IpnsCache, url: Url)
    requires StringKeysOnly(ens)
    requires c.ens(EnsName(url.hostname)) == Rejected || c.ens(EnsName(url.hostname)) == Fulfilled(None)
    ensures var s := Resolve(c, ens, ipns, url);
            Settle(s.result) == LeftOpen && s.calls == [EnsLookup(EnsName(url.hostname))]
  {
    EnsRecordCached(c, ens, ipns, url);
    EnsCacheNeverHit(c, ens, ipns, url);
  }

  /** An `ipfs` record whose fetch answers with a status other than 200 closes
      the filter with nothing written. */
  lemma NonOkStatusClosesEmpty(c: Clients, ens: EnsCache, ipns: IpnsCache, url: Url,
                               decoded: string, response: Response)
    requires StringKeysOnly(ens)
    requires c.ens(EnsName(url.hostname)) == Fulfilled(Some(ContentHash("ipfs", decoded)))
    requires c.fetch("ipfs://" + decoded + url.pathname) == Fulfilled(response)
    requires response.status != 200
    ensures Settle(Resolve(c, ens, ipns, url).result) == ClosedEmpty
  {
    IpfsRecordFetchedDirectly(c, ens, ipns, url, decoded);
  }

  // ---------------------------------------------------------------------------
  // End-to-end scenarios
  // ---------------------------------------------------------------------------

  /** The bytes of `<html>hi</html>`. */
  const HelloPage: seq<Byte> :=
    [0x3c, 0x68, 0x74, 0x6d, 0x6c, 0x3e, 0x68, 0x69, 0x3c, 0x2f, 0x68, 0x74, 0x6d, 0x6c, 0x3e]

  /** Clients for which `alice.eth` has an `ipfs` record whose content is `HelloPage`. */
  function AliceClients(): Clients
  {
    Clients(
      name => if name == "alice.eth" then Fulfilled(Some(ContentHash("ipfs", "bafybeigdyr"))) else Rejected,
      id => Rejected,
      (cid: Cid) => cid.raw,
      locator => if locator == "ipfs://bafybeigdyr/index.html" then Fulfilled(Response(200, HelloPage))
                 else Fulfilled(Response(404, [])))
  }

  /** `alice.eth.limo/index.html` with an `ipfs` record and a 200 fetch of
      `<html>hi</html>`: the filter receives exactly those bytes. */
  lemma AliceScenario(url: Url)
    requires url.hostname == "alice.eth.limo" && url.pathname == "/index.html"
    ensures var s := Resolve(AliceClients(), map[], map[], url);
            s.result == Pair("ipfs://bafybeigdyr/index.html", Response(200, HelloPage))
            && Settle(s.result) == Substituted(HelloPage)
  {
    var c := AliceClients();
    EnsNameOfLimoHost("alice.eth");
    assert "alice.eth" + LimoSuffix == "alice.eth.limo";
    assert c.ens(EnsName(url.hostname)) == Fulfilled(Some(ContentHash("ipfs", "bafybeigdyr")));
    assert "ipfs://" + "bafybeigdyr" + "/index.html" == "ipfs://bafybeigdyr/index.html";
    IpfsRecordFetchedDirectly(c, map[], map[], url, "bafybeigdyr");
  }

  /** Clients for which `bob.eth` has an `ipns` record that dereferences to `bafybeih`. */
  function BobClients(): Clients
  {
    Clients(
      name => if name == "bob.eth" then Fulfilled(Some(ContentHash("ipns", "k51qzi5uqu"))) else Rejected,
      id => if id == "k51qzi5uqu" then Fulfilled(IpnsResult(Cid("bafybeih"))) else Rejected,
      (cid: Cid) => cid.raw,
      locator => Fulfilled(Response(200, [])))
  }

  /** `bob.eth.limo/` with an `ipns` record: the locator is the `ipfs` one on
      the dereferenced identifier, and the IPNS cache holds the result. */
  lemma BobScenario(url: Url)
    requires url.hostname == "bob.eth.limo" && url.pathname == "/"
    ensures var s := Resolve(BobClients(), map[], map[], url);
            s.result.Pair? && s.result.locator == "ipfs://bafybeih/"
            && s.ipnsCache == map["k51qzi5uqu" := IpnsResult(Cid("bafybeih"))]
            && s.calls == [EnsLookup("bob.eth"), IpnsResolve("k51qzi5uqu"), Fetch("ipfs://bafybeih/")]
  {
    var c := BobClients();
    EnsNameOfLimoHost("bob.eth");
    assert "bob.eth" + LimoSuffix == "bob.eth.limo";
    assert c.ens(EnsName(url.hostname)) == Fulfilled(Some(ContentHash("ipns", "k51qzi5uqu")));
    assert c.ipns("k51qzi5uqu") == Fulfilled(IpnsResult(Cid("bafybeih")));
    assert "ipfs://" + "bafybeih" + "/" == "ipfs://bafybeih/";
    IpnsRecordDereferencedOnce(c, map[], map[], url, "k51qzi5uqu");
  }

  /** Clients for which `carol.eth` has an `onion` record. */
  function CarolClients(): Clients
  {
    Clients(
      name => if name == "carol.eth" then Fulfilled(Some(ContentHash("onion", "abc"))) else Rejected,
      id => Rejected,
      (cid: Cid) => cid.raw,
      locator => Fulfilled(Response(200, [])))
  }

  /** `carol.eth.limo` with an `onion` record: the diagnostic response, no
      fetch, the record cached anyway, and the filter left open. */
  lemma CarolScenario(url: Url)
    requires url.hostname == "carol.eth.limo"
    ensures var s := Resolve(CarolClients(), map[], map[], url);
            s.result == BareResponse(200, "unsupported protocol type: onion")
            && s.calls == [EnsLookup("carol.eth")]
            && s.ensCache == map[StringKey("carol.eth") := ContentHash("onion", "abc")]
            && Settle(s.result) == LeftOpen
  {
    var c := CarolClients();
    EnsNameOfLimoHost("carol.eth");
    assert "carol.eth" + LimoSuffix == "carol.eth.limo";
    assert c.ens(EnsName(url.hostname)) == Fulfilled(Some(ContentHash("onion", "abc")));
    assert UnsupportedPrefix + "onion" == "unsupported protocol type: onion";
    UnsupportedProtocolStopsEarly(c, map[], map[], url, ContentHash("onion", "abc"));
    EnsRecordCached(c, map[], map[], url);
  }
}

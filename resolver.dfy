/** The module-level state of limo-hijacker.js that `resolveContent` updates:
    the two caches, and `resolveContent` itself step by step. */
module Resolver {
  import opened Wrappers
  import opened Resolution

  /** The holder of `ensCache` and `ipnsCache`. The ghost `calls` records every
      call into an external client, in order, across all resolutions. */
  class ContentResolver {
    var ensCache: EnsCache
    var ipnsCache: IpnsCache
    ghost var calls: seq<Call>

    /** The ENS cache only ever receives string keys. */
    ghost predicate Valid()
      reads this
    {
      StringKeysOnly(ensCache)
    }

    /** Both `Map`s start empty. */
    constructor ()
      ensures Valid()
      ensures ensCache == map[] && ipnsCache == map[] && calls == []
    {
      ensCache := map[];
      ipnsCache := map[];
      calls := [];
    }

    /** `resolveContent(url)` for a URL with this hostname and pathname. The
        result, the new caches and the calls made are those of `Resolve` on the
        fresh URL object `url`; in particular the ENS client is always called. */
    method ResolveContent(c: Clients, hostname: string, pathname: string)
      returns (result: Resolution, ghost url: Url)
      requires Valid()
      modifies this
      ensures Valid()
      ensures fresh(url) && url.hostname == hostname && url.pathname == pathname
      ensures var s := Resolve(c, old(ensCache), old(ipnsCache), url);
              && result == s.result
              && ensCache == s.ensCache
              && ipnsCache == s.ipnsCache
              && calls == old(calls) + s.calls
      ensures |calls| > |old(calls)| && calls[|old(calls)|] == EnsLookup(EnsName(hostname))
    {
      var u := new Url(hostname, pathname);
      url := u;
      EnsCacheNeverHit(c, ensCache, ipnsCache, u);
      var name := EnsName(u.hostname);

      var lookup: Settled<Option<ContentHash>>;
      match Get(ensCache, ObjectKey(u)) {
        case Some(record) =>
          lookup := Fulfilled(Some(record));
        case None =>
          lookup := c.ens(name);
          calls := calls + [EnsLookup(name)];
      }
      if lookup.Rejected? {
        return Failed(EnsRejected), u;
      }
      if lookup.value.None? {
        return Failed(NoContentHash), u;
      }
      var protocolType := lookup.value.value.protocolType;
      var decoded := lookup.value.value.decoded;

      ensCache := ensCache[StringKey(name) := ContentHash(protocolType, decoded)];

      if protocolType != "ipfs" && protocolType != "ipns" {
        return BareResponse(DefaultStatus, UnsupportedPrefix + protocolType), u;
      }

      if protocolType == "ipns" {
        var pointer: Settled<IpnsResult>;
        if decoded in ipnsCache {
          pointer := Fulfilled(ipnsCache[decoded]);
        } else {
          pointer := c.ipns(decoded);
          calls := calls + [IpnsResolve(decoded)];
        }
        if pointer.Rejected? {
          return Failed(IpnsRejected), u;
        }
        ipnsCache := ipnsCache[decoded := pointer.value];
        protocolType := "ipfs";
        decoded := c.cidV1(pointer.value.cid);
      }

      var fullContentPath := protocolType + "://" + decoded + u.pathname;
      var response := c.fetch(fullContentPath);
      calls := calls + [Fetch(fullContentPath)];
      if response.Rejected? {
        return Failed(FetchRejected), u;
      }
      result := Pair(fullContentPath, response.value);
    }
  }
}

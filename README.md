# limo-hijacker: resolution and substitution, modelled in Dafny

This project models the core of `limo-hijacker.js`. That is the browser-extension background script that intercepts requests to `*.eth.limo`. For each request it resolves the ENS name behind the host to an IPFS locator, fetches the content through a verified fetch client, and writes that content into the intercepted response in place of eth.limo's own.

## What is modelled

- `wrappers.dfy`, module `Wrappers`: `Option` (a JavaScript `null` or a `Map` miss) and `Settled` (a promise that fulfils or rejects).
- `resolution.dfy`, module `Resolution`: the resolution chain of `resolveContent` as pure functions.
  - `EnsName` strips `.limo` from the host.
  - `Locator` builds `protocol://payload + pathname`.
  - `Resolve` is one whole run of `resolveContent` from given caches. It returns a `Step`: the result, both caches afterwards, and the trace of calls into the external clients.
  - The lemmas about `Resolve` state the caching, dispatch, locator and fetch properties.
- `resolver.dfy`, module `Resolver`: class `ContentResolver` holds the module-level `ensCache` and `ipnsCache` maps. Its method `ResolveContent` follows the source step by step: it creates the `URL` object, reads the ENS cache, calls the ENS client, writes the cache, checks the protocol, takes the IPNS branch (reassigning `protocolType` and `decoded`), builds the locator and fetches. It is proved to produce exactly what `Resolve` describes. A ghost `calls` field records every external call.
- `interception.dfy`, module `Interception`: `hijack`.
  - Class `Filter` is the response filter (`write`, `close`).
  - Class `Session` holds the `onstart` and `ondata` handlers.
  - `Hijack` attaches a fresh filter and returns `{canceled: false}`.
  - `Settle` gives the session outcome for each way the resolution can settle. End-to-end lemmas and three concrete scenarios tie it to `Resolve`.

The external clients are the fields of the `Clients` datatype. They are total functions the model does not interpret, so every lemma holds for all clients that answer each argument the same way on every call:
- `ensClient.getContentHashRecord`, where `None` is the `null` returned for a name without a content hash;
- `ipns.resolve(peerIdFromString(id))`, where a malformed id is a rejection;
- `cid.toV1().toString()`;
- `verifiedFetch`.

The clients are passed to each call, so one resolution sees one binding of them.

### Sharp edges of the source, stated as proved properties

- **The ENS cache never hits.** The JavaScript `Map` is read with the `URL` object as key (line 67) but written with the name string (line 72). The model keys the cache with `EnsKey = StringKey(name) | ObjectKey(obj)`. The invariant `StringKeysOnly` (all keys are strings) makes the read under the fresh URL object miss, so the ENS client is the first call of every resolution (`EnsCacheNeverHit`).
- **Unsupported records are cached.** The ENS record is stored before the protocol check (`EnsRecordCached`).
- **The diagnostic response leaves the filter open.** An unsupported protocol settles with a bare `Response` (status 200, body `unsupported protocol type: <kind>`). `hijack` destructures it as a pair, which throws inside the `then` callback. The filter is then never closed (`UnsupportedProtocolLeavesFilterOpen`).
- **Rejections leave the filter open.** No rejection handler exists, so a failed ENS lookup, a name without a content hash, an IPNS failure or a fetch rejection leaves the filter open (`EnsFailureLeavesFilterOpen` for the ENS cases; `Settle` for all of them). Together with the previous point, not every session reaches a closed filter.
- **A failed IPNS resolution is retried every time.** A rejected or null ENS lookup caches nothing (`EnsRecordCached`), and a rejected IPNS resolution leaves the IPNS cache as it was (`IpnsStep`), so the next request for the same id calls the resolver again. A rejected fetch comes after both cache writes and does not undo them.
- **The locator has no query string.** It is `protocolType + "://" + decoded + pathname` (line 97): the URL's `pathname` only, without `search` or `hash`.
- **The IPNS cache holds the resolver's whole result.** Line 90 stores `result`, not the CIDv1 string. The string is recomputed from `result.cid` on each use (lines 86-88 and 94).

## Model

| member | source | states |
|---|---|---|
| `Resolution.EnsName` | limo-hijacker.js:62 | the name is the host without its last 5 characters (`".limo".length`): name + those 5 characters gives back the host; a host shorter than 5 characters gives the empty name; the suffix is not checked |
| `Resolution.EnsNameOfLimoHost` | limo-hijacker.js:62 | stripping undoes appending `.limo`: `EnsName(name + ".limo") == name` (so `alice.eth.limo` names `alice.eth`) |
| `Resolution.Get` | limo-hijacker.js:67 | `Map.get`: a value is returned exactly when the key is present, and it is the stored value |
| `Resolution.UnsupportedMessage` | limo-hijacker.js:76 | the diagnostic text is `unsupported protocol type: ` followed by the protocol type, both recoverable from it |
| `Resolution.Locator` | limo-hijacker.js:97 | the locator is protocol, then `://`, then payload, then pathname; each part can be read back at its position |
| `Resolution.Url.constructor` | limo-hijacker.js:60 | a parsed URL is a new object holding the given hostname and pathname |
| `Resolution.FetchStep` | limo-hijacker.js:97-101 | exactly one fetch is made, of the locator, and the caches are untouched; the result is a pair exactly when the fetch fulfils, and then pairs the locator with the fetch's answer; otherwise the resolution rejects |
| `Resolution.IpnsStep` | limo-hijacker.js:79-95 | the ENS cache is untouched; the resolver is called exactly when the id is not cached; no cached entry is lost or changed; the id is cached afterwards exactly when it was already or the resolver answered; a pair's locator is the `ipfs` one on the CIDv1 string of the cached result; a resolver rejection rejects the resolution and leaves the cache as it was |
| `Resolution.Resolve` | limo-hijacker.js:59-102 | one run of `resolveContent`: it keeps the ENS cache free of object keys, changes no ENS entry other than the stripped name's, never loses or changes an IPNS entry, never calls the resolver for a cached id, and makes at most three external calls |
| `Resolution.EnsCacheNeverHit` | limo-hijacker.js:66-72 | with only string keys in the ENS cache, the lookup under the URL object misses: the first external call of every resolution is the ENS lookup of the stripped name |
| `Resolution.ProtocolDispatch` | limo-hijacker.js:74-79 | for a found record, the diagnostic response comes exactly from a protocol that is neither `ipfs` nor `ipns`; the run ends in a fetch exactly when the protocol is supported and, for `ipns`, the id was cached or the resolver answered; only an `ipns` record reaches the resolver |
| `Resolution.EnsRecordCached` | limo-hijacker.js:66-77 | a found record is stored under the name before the protocol check, so unsupported records are stored too, and nothing else in the ENS cache changes; a rejected or null lookup leaves both caches unchanged and the resolution failed |
| `Resolution.UnsupportedProtocolStopsEarly` | limo-hijacker.js:74-77 | a protocol other than `ipfs`/`ipns` gives a status-200 response whose body is `unsupported protocol type: <kind>`; the ENS lookup is the only call (no IPNS resolution, no fetch); the IPNS cache is unchanged |
| `Resolution.IpfsRecordFetchedDirectly` | limo-hijacker.js:97-101 | an `ipfs` record makes exactly two calls, the ENS lookup and one fetch of `ipfs://<decoded><pathname>`; the result is that locator paired with the fetch's response, or a rejection if the fetch rejects; the IPNS cache is unchanged |
| `Resolution.IpnsRecordDereferencedOnce` | limo-hijacker.js:79-101 | an `ipns` record calls the resolver exactly when the IPNS cache lacks the id; after a successful dereference the cache holds the result under the id, the one fetch is of `ipfs://<CIDv1 of the result><pathname>` (one level only), and the result is that locator paired with the fetch's answer, or a rejection if the fetch rejects; a failed dereference leaves the cache unchanged, makes no fetch and rejects |
| `Resolution.PairComesFromOneFetch` | limo-hijacker.js:97-101 | whenever the result is a pair, exactly one fetch was made, as the last call, of the returned locator; the returned response is that fetch's answer; the locator is `ipfs://` + payload + pathname |
| `Resolution.ResolveEach` | limo-hijacker.js:56-102 | resolving a series of URLs one call at a time from the module-level caches keeps the ENS cache free of object keys, never loses or changes an IPNS entry, and makes at most three external calls per URL |
| `Resolution.CachedIdNeverResolved` | limo-hijacker.js:82-90 | an id already in the IPNS cache is never handed to the resolver in any series of later resolutions, and its cached result stays |
| `Resolution.IpnsIdNeverResolvedAgain` | limo-hijacker.js:82-90 | once one resolution has dereferenced an IPNS id, no later resolution in any series, of any host, calls the resolver for that id |
| `Resolution.RepeatedResolutionSameLocator` | limo-hijacker.js:59-102 | resolving the same host and path twice in a row, with clients that give the same answers both times, gives the same locator both times |
| `Resolver.ContentResolver.constructor` | limo-hijacker.js:56-57 | both caches start empty and no call has been made |
| `Resolver.ContentResolver.ResolveContent` | limo-hijacker.js:59-102 | the step-by-step resolver produces exactly the result, caches and call trace of `Resolve` on a fresh URL object with the given hostname and pathname; the first new call is the ENS lookup; the string-key invariant is kept |
| `Interception.Filter.constructor` | limo-hijacker.js:109 | a new response filter is open with nothing written |
| `Interception.Filter.Write` | limo-hijacker.js:115 | writing appends one chunk to an open filter and leaves it open |
| `Interception.Filter.Close` | limo-hijacker.js:116 | closing marks the filter closed and keeps what was written |
| `Interception.Settle` | limo-hijacker.js:112-123 | the session is substituted exactly when the resolution is a pair with status 200, and then its body is the response body; it closes empty exactly when the pair has another status; it stays open exactly when the result is not a pair (bare response or rejection) |
| `Interception.Session.constructor` | limo-hijacker.js:109 | a session's filter is fresh, open and empty |
| `Interception.Session.OnStart` | limo-hijacker.js:111-124 | after `onstart` the resolver's caches and call trace have advanced by one `Resolve` step, and the filter shows the outcome `Settle` gives: the body written once then closed, closed empty, or left open |
| `Interception.Session.OnData` | limo-hijacker.js:127 | a data chunk from eth.limo leaves the filter unchanged |
| `Interception.Hijack` | limo-hijacker.js:107-130 | the request is not canceled, and a fresh open, empty filter is attached for the given host and path |
| `Interception.SubstitutedBodyWasFetched` | limo-hijacker.js:112-116 | a substituted body is the body of a status-200 answer of the fetch client to a locator that the resolution fetched |
| `Interception.UnsupportedProtocolLeavesFilterOpen` | limo-hijacker.js:74-112 | an unsupported protocol leaves the filter open, and no fetch was made |
| `Interception.EnsFailureLeavesFilterOpen` | limo-hijacker.js:66-112 | a rejected ENS lookup or a name without a content hash leaves the filter open after exactly one external call |
| `Interception.NonOkStatusClosesEmpty` | limo-hijacker.js:113-122 | an `ipfs` record whose fetch answers with a status other than 200 closes the filter with nothing written |
| `Interception.AliceScenario` | limo-hijacker.js:59-116 | `alice.eth.limo/index.html` with an `ipfs` record and a 200 fetch of `<html>hi</html>` writes exactly those bytes, then closes |
| `Interception.BobScenario` | limo-hijacker.js:79-101 | `bob.eth.limo/` with an `ipns` record gives the locator `ipfs://bafybeih/`, caches the IPNS result, and makes the calls ENS, IPNS, fetch in that order |
| `Interception.CarolScenario` | limo-hijacker.js:66-112 | `carol.eth.limo` with an `onion` record gives the diagnostic response, calls only ENS, caches the record and leaves the filter open |

## Left out

- Client construction in `setup` (Helia, verified fetch, IPNS, the viem transport and the ENS client, lines 12-36): these only build library objects whose code is not part of this model. The clients are the parameters in `Clients`.
- `getEthRPC` (lines 40-46), `setENSClient` (lines 48-54) and the `onMessage` listener (lines 149-154): these are browser storage, messaging and client rebinding. The model passes one binding of the clients to each resolution, so the race where a rebinding lands between the steps of one resolution is not modelled.
- Listener registration and its URL filter (lines 131-147): this is extension wiring. The URL filter is why `EnsName` does not check the suffix.
- `URL` parsing (line 60): the hostname and pathname are taken as given strings. The model keeps only the fact that a fresh `URL` object is created per call.
- The protocols behind the clients: EIP-1577 content-hash decoding, IPNS record resolution and validation, peer-id and CID parsing, and trustless fetching. These are the functions in `Clients`, and the model does not interpret them.
- `IpnsResult`: of the resolver's result only `cid` is modelled, because `resolveContent` reads nothing else. `toV1().toString()` is modelled as total; a throw there is not modelled.
- `Session.OnStart`: `await response.arrayBuffer()` is modelled as reading the body bytes, which always succeeds. A rejection of the body read (which would also leave the filter open) is not modelled.
- Promise scheduling: concurrent sessions interleaving at `await` points, and so racing on the caches, are not modelled. Resolutions run one at a time, each as a single step.
- Console logging (lines 63-65, 70, 75, 80, 85-89, 98, 108, 114, 118-120): this has no effect on behaviour, except that lines 85-89 evaluate `result.cid.toV1().toString()` before the IPNS cache write. A throw there would skip that write; like the throw at line 94, it is not modelled (see the `IpnsResult` line above).
- Resolution.RepeatedResolutionSameLocator: holds only for clients that give the same answers both times. Each client is a fixed function, so an ENS record updated between two calls is not modelled; because the ENS cache never hits, the code's second locator follows whatever the ENS client answers at that moment.
- The ghost `calls` trace of `ContentResolver` is an observation added by the model. The source keeps no such record.

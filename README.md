# nodejs-piwik-proxy, modelled in Dafny

The repository is a Node.js relay that hides a Piwik analytics server behind the web site that
embeds it. One object, `PiwikProxy`, holds the Piwik base URL, the authentication token and
an options bag for the HTTP client. Its `process(req, res)` method serves two kinds of request:

* **library fetch** (no query parameters): serve `piwik.js`. If the caller's
  `If-Modified-Since` is less than a day old, it answers 304 without fetching.
* **tracking beacon** (any query parameter): forward the parameters to `piwik.php`, adding
  the client address (`cip`) and the token (`token_auth`). The caller's `User-Agent` and
  `Accept-Language` are copied into the options' headers.

On both paths the upstream outcome is mapped the same way:

* a transport error gives 500 with the error text;
* a status of 300 or more passes through without a body;
* anything else passes through with the body.

The model has six modules:

* `Wrappers`: Option and Result.
* `Js`: the JavaScript semantics the code relies on (truthiness, `typeof`, `x || d`, `indexOf`).
* `UriComponent`: `encodeURIComponent` as defined in section 18.2.6.5 of ECMAScript 2015
  (UTF-8, then percent-escaping of every octet outside the unreserved set). It also has an
  independent decoder, with the round trip proved.
* `FreshnessGate`: the one-day gate and the stripping of trailing `;` data.
* `Forwarder`: the tracking URL (a spec function and the loop that builds it), the header
  injection, the response mapping, and how the collection server parses the forwarded query.
* `PiwikProxy`: three classes. `Proxy` has the fields `piwikUrl`, `tokenAuth` and `options`.
  `Request` is the inbound request, which `process` changes in place. `Response` records the
  `setHeader` and `send` calls made on it. The module also holds the factory `Create` (the
  constructor with its checks) and `Process`, which is proved against the pure function `Handle`.

`ProxyScenarios` restates the repository's test suite over the model.

Abstractions:

* The HTTP transport `request.get` is the parameter `get: Call -> Outcome`: the outcome the
  transport reports for a given URL and options.
* The clock is the parameter `Clock(millis, utc)`: the current time in milliseconds and its
  `toUTCString` text.
* `new Date(s).getTime()` is the parameter `parseDate: string -> Option<int>`, with `None`
  standing for NaN.
* The query object is a sequence of (key, value) pairs in enumeration order.

Four behaviours of the code the model keeps:

* The code writes the per-request `User-Agent`/`Accept-Language` into the shared
  `this.options.headers`, rather than into a request-scoped copy. Those headers therefore
  persist, and a later `piwik.js` fetch sends them along (`StaleHeadersReachLibraryFetch`).
* The constructor keeps the options bag, and `process` later changes its headers.
* When neither `req.ip` nor `req._remoteAddress` is set, the code forwards `cip=undefined`.
* Query keys, the client address and the token are forwarded unencoded. A key can therefore add
  or repeat upstream parameters such as `cip` or `token_auth` (`UnencodedKeyAddsParameter`,
  `InjectedClientAddress`, `KeyRepeatsClientAddress`).

## Model

| member | source | states |
|---|---|---|
| `Js.RejectsAllButNonEmptyString` | index.js:21-25 | the guard `!x \|\| typeof x !== 'string'` rejects exactly the values that are not a non-empty string |
| `Js.StringOr` | index.js:94-95 | `x \|\| ''` gives the header value when it is present and non-empty, else the default |
| `Js.IndexOf` | index.js:54 | indexOf gives -1 exactly when the character is absent, otherwise the position of its first occurrence |
| `UriComponent.EncodeAlphabet` | index.js:88 | every character of encodeURIComponent's output is unreserved, '%' or an upper-case hex digit |
| `UriComponent.EncodeHasNoSeparators` | index.js:88 | an encoded value never contains '&' or '=' |
| `UriComponent.EncodeIdentityIff` | index.js:88 | encoding leaves a value unchanged if and only if every character is unreserved |
| `UriComponent.EncodeLength` | index.js:88 | the encoding is never shorter than the value, and strictly longer once one character needs escaping |
| `UriComponent.DecodeEncode` | index.js:88 | percent-decoding then UTF-8 decoding the encoding gives back the original value, for every string |
| `UriComponent.EncodeInjective` | index.js:88 | two values with the same encoding are equal |
| `FreshnessGate.StripTrailingData` | index.js:53-55 | the header is cut before its first ';' when that ';' is not at index 0; with no ';' or a leading ';' it is unchanged |
| `FreshnessGate.StripConditional` | index.js:52-55 | only the if-modified-since entry of the inbound headers is rewritten, to its stripped form; the key set and every other entry stay |
| `FreshnessGate.ModifiedSince` | index.js:52-58 | an absent or empty header yields no time; a present, non-empty header always yields the parse of the header cut at its first ';', NaN included |
| `FreshnessGate.Decide` | index.js:57-64 | 304 is answered only for a present, non-empty header, and exactly when it parses to a non-zero time less than 86400000 ms before now |
| `FreshnessGate.FailOpen` | index.js:52-64 | an absent, empty, unparseable or epoch-zero If-Modified-Since always leads to the fetch |
| `FreshnessGate.NotModifiedIffYoungerThanADay` | index.js:60-64 | for a parsed non-zero time t the answer is 304 exactly when now - t is under 86400000 ms |
| `FreshnessGate.StalenessIsMonotone` | index.js:60-64 | if the gate answers 304 at a later time, it also answers 304 at every earlier time |
| `FreshnessGate.TrailingDataIgnored` | index.js:53-57 | a header `date;anything` is decided as `date` is |
| `Forwarder.ClientAddress` | index.js:82-83 | cip is req.ip when truthy, else req._remoteAddress, and the text "undefined" when that is absent too |
| `Forwarder.LibraryHeaders` | index.js:67-69 | the library path sets exactly three headers in this order: Last-Modified with the current UTC time, the script content type, Vary: Accept-Encoding |
| `Forwarder.TrackingUrl` | index.js:83-90 | the tracking URL begins with the configured base followed by `piwik.php?` |
| `Forwarder.BuildTrackingUrl` | index.js:82-90 | the loop's URL is base + `piwik.php?cip=` + cip + `&token_auth=` + token + `&` followed by `key=encodeURIComponent(value)&` per entry, in order |
| `Forwarder.TrackingUrlShape` | index.js:83-90 | the tracking URL starts with the configured base and always ends in '&' |
| `Forwarder.WithTrackingHeaders` | index.js:93-95 | the options' headers (created when absent) get User-Agent and Accept-Language; every other header and every other option is kept |
| `Forwarder.LastInjectionWins` | index.js:93-95 | a second injection into the shared options overwrites the first completely |
| `Forwarder.MapOutcome` | index.js:73-75 | a transport error gives 500 with its text; a status of 300 or more passes through with no body; a lower status passes through with the body |
| `Forwarder.ParseQueryPairs` | index.js:84-90 | splitting the forwarded entries at '&' and '=' gives each key with its encoded value, in order, when keys hold neither separator |
| `Forwarder.ParseTrackingQuery` | index.js:83 | when the client address and the token hold neither '&' nor '=', the tracking query reads back as cip, then token_auth, then the forwarded entries |
| `Forwarder.TrackingQueryRoundTrip` | index.js:82-90 | when the keys, the client address and the token hold neither '&' nor '=', the collection server recovers the client address, the token and every original (key, value) entry, in order |
| `Forwarder.UnencodedKeyAddsParameter` | index.js:88 | a key `a&b` (a and b free of separators) reaches the collection server as two parameters: `a` with an empty value, and `b` with the entry's value |
| `Forwarder.InjectedClientAddress` | index.js:88 | the query entry `x&cip` = 1 is read upstream as `x` and a client-chosen `cip=1` |
| `Forwarder.KeyRepeatsClientAddress` | index.js:83-88 | a query key `cip` reaches the collection server as a second `cip` parameter after the proxy's own |
| `PiwikProxy.CheckArguments` | index.js:21-25 | construction is refused unless both URL and token are non-empty strings; the URL is checked first, and its message wins |
| `PiwikProxy.Classify` | index.js:46-49 | the library path is chosen exactly when the defaulted query has no entries |
| `PiwikProxy.Handle` | index.js:42-107 | the path is chosen by the query; at most one call is made and its outcome gives the reply; the tracking path sets the GIF content type and leaves the request headers alone; the library path keeps the options and strips the conditional header |
| `PiwikProxy.OneReplyAtMostOneCall` | index.js:49-106 | one reply, at most one outbound call; no call exactly on the library path with a 304 from the gate; otherwise the reply maps that call's outcome; the response headers are the library headers after a fetch and the GIF content type (line 98) on the tracking path |
| `PiwikProxy.OptionsPerPath` | index.js:72-101 | the library fetch goes to base + piwik.js with the options unchanged; the tracking call goes to the tracking URL, its options are the shared ones with User-Agent and Accept-Language injected from the request, every other header and the settings are kept |
| `PiwikProxy.StaleHeadersReachLibraryFetch` | index.js:93-95 | after a tracking request, a library fetch carries that request's User-Agent |
| `PiwikProxy.Proxy.constructor` | index.js:27-29 | the URL and token are stored unchanged, and a missing options bag becomes {} |
| `PiwikProxy.Proxy.Create` | index.js:18-30 | construction fails with the URL or token message as CheckArguments decides; otherwise a fresh valid proxy holds the arguments |
| `PiwikProxy.Proxy.Process` | index.js:42-107 | a missing req or res fails and changes nothing; otherwise the query and headers are defaulted in place and the state afterwards is what Handle computes: calls, response headers, one reply, options and request headers |
| `ProxyScenarios.ExactTrackingUrl` | test/index.test.js:156-168 | query {idsite: 1, rec: 1} from 127.0.0.1 with token xyz is forwarded to exactly `http://localhost/piwik.php?cip=127.0.0.1&token_auth=xyz&idsite=1&rec=1&` |
| `ProxyScenarios.MisuseIsRejected` | test/index.test.js:23-53 | construction with no arguments or a null URL fails with the URL message, a null token with the token message; a proxy built with valid arguments holds the URL and the token, with empty options when none are passed and the passed bag otherwise; `process` without req/res (lines 69-73) fails with the arguments message |
| `ProxyScenarios.TrackingRequest` | test/index.test.js:156-168 | end to end through `process`, the suite's tracking request calls exactly the expected piwik.php URL, sets the GIF content type and sends one reply |
| `ProxyScenarios.LibraryFetch` | test/index.test.js:75-95 | with no query, http://localhost/piwik.js is fetched and a 200 is relayed with its body and the script content type |
| `ProxyScenarios.TrailingDataStripped` | test/index.test.js:115-122 | an If-Modified-Since of now + ";text" answers 304 without a fetch and is stored stripped |
| `ProxyScenarios.TenDayOldHeaderFetches` | test/index.test.js:124-132 | a ten-day-old If-Modified-Since leads to the fetch |
| `ProxyScenarios.UpstreamFailures` | test/index.test.js:179-195 | on either path an upstream 404 is relayed as a bare 404, and a transport error as 500 with its text |
| `ProxyScenarios.EachBeaconCarriesItsOwnUserAgent` | index.js:93-95 | consecutive tracking requests each send their own User-Agent |

## Left out

- The `request.get` transport and its asynchronous callback: replaced by the outcome function `get`. The reply is recorded as if the callback ran at once. Concurrent requests, and the data race on `this.options.headers` they cause, are not modelled; requests run one at a time.
- JavaScript Date parsing and `toUTCString`: replaced by the `parseDate` and `clock` parameters. The code reads the clock twice (lines 61 and 67); the model reads it once.
- Line 19, the call without `new`: it behaves exactly like the constructor and is not modelled separately.
- `hasOwnProperty` (line 86): the query is a sequence of the object's own entries, so no inherited entry exists. Query values are taken as strings, which is what ToString makes of the numbers in the tests; array or object values from a query parser are not modelled.
- The query sequence may repeat a key, which a JavaScript object cannot; nothing in the model depends on keys being unique.
- Options: the bag is modelled by value as opaque string settings plus an optional headers map. The code keeps a reference to the caller's object, so its changes are visible to the caller; that aliasing is not modelled. A truthy options argument that is not an object is not modelled.
- `Js.Value` numbers are integers plus NaN; fractional numbers would only matter to a truthiness test and are not modelled.
- `encodeURIComponent`'s URIError for lone surrogates cannot arise, because a Dafny string holds Unicode scalar values only.
- Express's `res.send` and `res.setHeader` beyond their arguments (status text, content length) are not modelled. `Response` only records what was passed to them.
- example/app.js (Express wiring and I/O) is not part of this model.

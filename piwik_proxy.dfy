/**
 * The PiwikProxy object of index.js: construction with argument validation, and `process`, which
 * dispatches a request to the library path (serve piwik.js behind the freshness gate) or to the
 * tracking path (relay the beacon to piwik.php with the token and the client address).
 *
 * The HTTP transport is the parameter `get`, the outcome it would report for a call; the clock is
 * the parameter `clock`; JavaScript's Date parsing is the parameter `parseDate` (None for NaN).
 */
module PiwikProxy {
  import opened Wrappers
  import Js
  import FreshnessGate
  import opened Forwarder

  const UrlMissing: string := "A piwik URL must be provided"
  const TokenMissing: string := "A token auth must be provided"
  const ArgumentsMissing: string := "Request and response object must be provided"

  /** The current time in milliseconds and as `toUTCString` renders it. */
  datatype Clock = Clock(millis: int, utc: string)

  datatype Path = Library | Tracking

  /** The constructor's checks, in order: the URL first, then the token. None when both pass. */
  function CheckArguments(piwikUrl: Js.Value, tokenAuth: Js.Value): (r: Option<string>)
    ensures r.None? <==> piwikUrl.Str? && piwikUrl.s != "" && tokenAuth.Str? && tokenAuth.s != ""
    ensures r == Some(UrlMissing) <==> !(piwikUrl.Str? && piwikUrl.s != "")
    ensures r == Some(TokenMissing) <==> piwikUrl.Str? && piwikUrl.s != "" && !(tokenAuth.Str? && tokenAuth.s != "")
  {
    Js.RejectsAllButNonEmptyString(piwikUrl);
    Js.RejectsAllButNonEmptyString(tokenAuth);
    if !Js.Truthy(piwikUrl) || Js.TypeOf(piwikUrl) != "string" then Some(UrlMissing)
    else if !Js.Truthy(tokenAuth) || Js.TypeOf(tokenAuth) != "string" then Some(TokenMissing)
    else None
  }

  /** The zero query entries select the library path, any entry the tracking path. */
  function Classify(query: Query): (p: Path)
    ensures p == Library <==> query == []
  {
    if |query| == 0 then Library else Tracking
  }

  /** Everything one successful `process` call does, as a function of the state before it. */
  datatype Handling = Handling(
    path: Path,
    calls: seq<Call>,                        // outbound GETs, in order
    responseHeaders: seq<(string, string)>,  // res.setHeader calls, in order
    reply: Reply,                            // the one res.send call
    options: Options,                        // this.options afterwards
    requestHeaders: map<string, string>)     // req.headers afterwards

  function Handle(piwikUrl: string, tokenAuth: string, options: Options, query: Query,
                  headers: map<string, string>, cip: string, clock: Clock,
                  parseDate: string -> Option<int>, get: Call -> Outcome): (h: Handling)
    ensures h.path == Classify(query) && |h.calls| <= 1
    ensures h.calls != [] ==> h.reply == MapOutcome(get(h.calls[0]))
    ensures h.path == Tracking ==> h.requestHeaders == headers && h.responseHeaders == TrackingHeaders
    ensures h.path == Library ==> h.options == options && h.requestHeaders == FreshnessGate.StripConditional(headers)
  {
    match Classify(query)
    case Library =>
      var stripped := FreshnessGate.StripConditional(headers);
      if FreshnessGate.Decide(Js.Get(headers, FreshnessGate.ConditionalHeader), clock.millis, parseDate)
         == FreshnessGate.NotModified
      then Handling(Library, [], [], Reply(304, None), options, stripped)
      else
        var call := Call(piwikUrl + LibraryFile, options);
        Handling(Library, [call], LibraryHeaders(clock.utc), MapOutcome(get(call)), options, stripped)
    case Tracking =>
      var injected := WithTrackingHeaders(options, Js.StringOr(Js.Get(headers, "user-agent"), ""),
                                          Js.StringOr(Js.Get(headers, "accept-language"), ""));
      var call := Call(TrackingUrl(piwikUrl, cip, tokenAuth, query), injected);
      Handling(Tracking, [call], TrackingHeaders, MapOutcome(get(call)), injected, headers)
  }

  /** Every request gets exactly one reply and at most one outbound call; the call is skipped
      exactly when the library path's gate answers 304, and otherwise the reply is the mapping
      of what the transport reports for that call. */
  lemma {:induction false} OneReplyAtMostOneCall(piwikUrl: string, tokenAuth: string, options: Options,
                                                  query: Query, headers: map<string, string>, cip: string,
                                                  clock: Clock, parseDate: string -> Option<int>,
                                                  get: Call -> Outcome)
    ensures var h := Handle(piwikUrl, tokenAuth, options, query, headers, cip, clock, parseDate, get);
      && h.path == Classify(query)
      && |h.calls| <= 1
      && (h.calls == [] <==>
           query == [] &&
           FreshnessGate.Decide(Js.Get(headers, FreshnessGate.ConditionalHeader), clock.millis, parseDate)
             == FreshnessGate.NotModified)
      && (h.calls == [] ==> h.reply == Reply(304, None) && h.responseHeaders == [])
      && (h.calls != [] ==> h.reply == MapOutcome(get(h.calls[0])))
      && (query == [] && h.calls != [] ==> h.responseHeaders == LibraryHeaders(clock.utc))
      && (query != [] ==> h.responseHeaders == TrackingHeaders)
  {
  }

  /** The library path fetches piwik.js with the options exactly as they stand, and leaves them so;
      the tracking path changes nothing but their two injected headers. */
  lemma {:induction false} OptionsPerPath(piwikUrl: string, tokenAuth: string, options: Options,
                                          query: Query, headers: map<string, string>, cip: string,
                                          clock: Clock, parseDate: string -> Option<int>,
                                          get: Call -> Outcome)
    ensures var h := Handle(piwikUrl, tokenAuth, options, query, headers, cip, clock, parseDate, get);
      && (query == [] ==>
           h.options == options && forall c :: c in h.calls ==> c == Call(piwikUrl + LibraryFile, options))
      && (query != [] ==>
           h.options == WithTrackingHeaders(options, Js.StringOr(Js.Get(headers, "user-agent"), ""),
                                            Js.StringOr(Js.Get(headers, "accept-language"), "")) &&
           h.options.settings == options.settings &&
           (forall k :: k in h.options.headers.value <==>
              k in options.headers.GetOr(map[]) || k == UserAgent || k == AcceptLanguage) &&
           (forall k :: k in options.headers.GetOr(map[]) && k != UserAgent && k != AcceptLanguage ==>
              h.options.headers.value[k] == options.headers.GetOr(map[])[k]) &&
           h.calls == [Call(TrackingUrl(piwikUrl, cip, tokenAuth, query), h.options)] &&
           h.options.headers.value[UserAgent] == Js.StringOr(Js.Get(headers, "user-agent"), "") &&
           h.options.headers.value[AcceptLanguage] == Js.StringOr(Js.Get(headers, "accept-language"), ""))
  {
  }

  /** Because the injected headers stay in the shared options, a library fetch that follows a
      tracking request sends that request's User-Agent along. */
  lemma StaleHeadersReachLibraryFetch(piwikUrl: string, tokenAuth: string, options: Options,
                                      beacon: Query, beaconHeaders: map<string, string>, cip: string,
                                      headers: map<string, string>, clock: Clock,
                                      parseDate: string -> Option<int>, get: Call -> Outcome)
    requires beacon != [] && "user-agent" in beaconHeaders && beaconHeaders["user-agent"] != ""
    requires Js.Get(headers, FreshnessGate.ConditionalHeader).None?
    ensures var first := Handle(piwikUrl, tokenAuth, options, beacon, beaconHeaders, cip, clock, parseDate, get);
      var second := Handle(piwikUrl, tokenAuth, first.options, [], headers, cip, clock, parseDate, get);
      |second.calls| == 1 && second.calls[0].options.headers.Some? &&
      second.calls[0].options.headers.value[UserAgent] == beaconHeaders["user-agent"]
  {
  }

  /** The inbound request; `process` defaults its query and headers in place. */
  class Request {
    var query: Option<Query>
    var headers: Option<map<string, string>>
    var ip: Option<string>
    var remoteAddress: Option<string>

    constructor (query: Option<Query>, headers: Option<map<string, string>>,
                 ip: Option<string>, remoteAddress: Option<string>)
      ensures this.query == query && this.headers == headers
      ensures this.ip == ip && this.remoteAddress == remoteAddress
    {
      this.query := query;
      this.headers := headers;
      this.ip := ip;
      this.remoteAddress := remoteAddress;
    }
  }

  /** The outbound response, as the sequence of setHeader and send calls made on it. */
  class Response {
    var headers: seq<(string, string)>
    var sent: seq<Reply>

    constructor ()
      ensures headers == [] && sent == []
    {
      headers := [];
      sent := [];
    }
  }

  class Proxy {
    var piwikUrl: string
    var tokenAuth: string
    var options: Options

    /** Construction only succeeds with a non-empty URL and token, and nothing changes them. */
    ghost predicate Valid()
      reads this
    {
      piwikUrl != "" && tokenAuth != ""
    }

    /** The field initialisation of the constructor, once its checks have passed. */
    constructor (piwikUrl: string, tokenAuth: string, options: Option<Options>)
      requires piwikUrl != "" && tokenAuth != ""
      ensures Valid()
      ensures this.piwikUrl == piwikUrl && this.tokenAuth == tokenAuth
      ensures this.options == options.GetOr(Options(map[], None))
    {
      this.piwikUrl := piwikUrl;
      this.tokenAuth := tokenAuth;
      this.options := options.GetOr(Options(map[], None));
    }

    /** `new PiwikProxy(piwikUrl, tokenAuth, options)`: throws unless both are non-empty strings;
        a missing options bag becomes {}. */
    static method Create(piwikUrl: Js.Value, tokenAuth: Js.Value, options: Option<Options>)
      returns (r: Result<Proxy, string>)
      ensures r.Failure? <==> CheckArguments(piwikUrl, tokenAuth).Some?
      ensures r.Failure? ==> r.error == CheckArguments(piwikUrl, tokenAuth).value
      ensures r.Success? ==>
        && fresh(r.value) && r.value.Valid()
        && r.value.piwikUrl == piwikUrl.s && r.value.tokenAuth == tokenAuth.s
        && r.value.options == options.GetOr(Options(map[], None))
    {
      var error := CheckArguments(piwikUrl, tokenAuth);
      if error.Some? {
        return Failure(error.value);
      }
      var proxy := new Proxy(piwikUrl.s, tokenAuth.s, options);
      return Success(proxy);
    }

    /** `process(req, res)`. Throws, changing nothing, when either is missing; otherwise it
        does what Handle describes and answers with exactly one reply. Returns the outbound calls. */
    method Process(req: Request?, res: Response?, clock: Clock,
                   parseDate: string -> Option<int>, get: Call -> Outcome)
      returns (r: Result<seq<Call>, string>)
      requires Valid()
      modifies this`options, req, res
      ensures Valid()
      ensures r.Failure? <==> req == null || res == null
      ensures r.Failure? ==> r.error == ArgumentsMissing && options == old(options)
      ensures r.Failure? && req != null ==> unchanged(req)
      ensures r.Failure? && res != null ==> unchanged(res)
      ensures r.Success? ==>
        var h := Handle(piwikUrl, tokenAuth, old(options), old(req.query).GetOr([]),
                        old(req.headers).GetOr(map[]),
                        ClientAddress(old(req.ip), old(req.remoteAddress)), clock, parseDate, get);
        r.value == h.calls && options == h.options &&
        req.query == Some(old(req.query).GetOr([])) && req.headers == Some(h.requestHeaders) &&
        req.ip == old(req.ip) && req.remoteAddress == old(req.remoteAddress) &&
        res.headers == old(res.headers) + h.responseHeaders && res.sent == old(res.sent) + [h.reply]
    {
      if req == null || res == null {
        return Failure(ArgumentsMissing);
      }
      var query := req.query.GetOr([]);
      req.query := Some(query);
      var headers := req.headers.GetOr(map[]);
      req.headers := Some(headers);

      if |query| == 0 {
        // library path: the freshness gate
        ghost var inbound := headers;
        var since: Option<int> := None;
        if FreshnessGate.ConditionalHeader in headers && headers[FreshnessGate.ConditionalHeader] != "" {
          var value := headers[FreshnessGate.ConditionalHeader];
          var trailingIndex := Js.IndexOf(value, ';');
          if trailingIndex > 0 {
            headers := headers[FreshnessGate.ConditionalHeader := value[..trailingIndex]];
            req.headers := Some(headers);
          } else {
            assert inbound[FreshnessGate.ConditionalHeader := value] == inbound;
          }
          since := parseDate(headers[FreshnessGate.ConditionalHeader]);
        }
        assert headers == FreshnessGate.StripConditional(inbound);
        var lastModified := clock.millis - FreshnessGate.FreshnessWindow;
        if since.Some? && since.value != 0 && since.value > lastModified {
          res.sent := res.sent + [Reply(304, None)];
          return Success([]);
        }
        res.headers := res.headers + LibraryHeaders(clock.utc);
        var call := Call(piwikUrl + LibraryFile, options);
        res.sent := res.sent + [MapOutcome(get(call))];
        return Success([call]);
      } else {
        // tracking path
        var cip := ClientAddress(req.ip, req.remoteAddress);
        var url := BuildTrackingUrl(piwikUrl, cip, tokenAuth, query);
        options := WithTrackingHeaders(options, Js.StringOr(Js.Get(headers, "user-agent"), ""),
                                       Js.StringOr(Js.Get(headers, "accept-language"), ""));
        res.headers := res.headers + TrackingHeaders;
        var call := Call(url, options);
        res.sent := res.sent + [MapOutcome(get(call))];
        return Success([call]);
      }
    }
  }
}

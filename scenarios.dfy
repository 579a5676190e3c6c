/** The behaviour the test suite of the repository checks, stated over the model. */
module ProxyScenarios {
  import opened Wrappers
  import Js
  import UriComponent
  import FreshnessGate
  import opened Forwarder
  import opened PiwikProxy

  function NoDate(s: string): Option<int> { None }

  lemma EncodeOne()
    ensures UriComponent.EncodeURIComponent("1") == "1"
  {
    UriComponent.EncodeIdentityIff("1");
  }

  lemma SuiteQueryPairs()
    ensures QueryPairs([("idsite", "1"), ("rec", "1")]) == "idsite=1&rec=1&"
  {
    EncodeOne();
    var q := [("idsite", "1"), ("rec", "1")];
    assert q[1..] == [("rec", "1")] && q[1..][1..] == [];
    assert Pair("rec", "1") == "rec=1&";
    assert Pair("idsite", "1") == "idsite=1&";
  }

  lemma SuiteUrlLiteral()
    ensures "http://localhost/" + TrackingEndpoint + "?" == "http://localhost/piwik.php?"
    ensures (("http://localhost/piwik.php?" + "cip=127.0.0.1&") + "token_auth=xyz&") + "idsite=1&rec=1&"
         == "http://localhost/piwik.php?cip=127.0.0.1&token_auth=xyz&idsite=1&rec=1&"
  {
    assert "http://localhost/piwik.php?" + "cip=127.0.0.1&" == "http://localhost/piwik.php?cip=127.0.0.1&";
    assert "http://localhost/piwik.php?cip=127.0.0.1&" + "token_auth=xyz&"
        == "http://localhost/piwik.php?cip=127.0.0.1&token_auth=xyz&";
    assert "http://localhost/piwik.php?cip=127.0.0.1&token_auth=xyz&" + "idsite=1&rec=1&"
        == "http://localhost/piwik.php?cip=127.0.0.1&token_auth=xyz&idsite=1&rec=1&";
  }

  /** The tracking request of the suite: query {idsite: 1, rec: 1}, address 127.0.0.1. */
  lemma ExactTrackingUrl()
    ensures TrackingUrl("http://localhost/", "127.0.0.1", "xyz", [("idsite", "1"), ("rec", "1")])
         == "http://localhost/piwik.php?cip=127.0.0.1&token_auth=xyz&idsite=1&rec=1&"
  {
    SuiteQueryPairs();
    SuiteUrlLiteral();
    var base := "http://localhost/" + TrackingEndpoint + "?";
    var cip := Segment("cip", "127.0.0.1");
    var token := Segment("token_auth", "xyz");
    var pairs := QueryPairs([("idsite", "1"), ("rec", "1")]);
    assert cip == "cip=127.0.0.1&" && token == "token_auth=xyz&";
    assert base + (cip + token + pairs) == ((base + cip) + token) + pairs;
  }

  lemma LocalLibraryUrl()
    ensures "http://localhost/" + LibraryFile == "http://localhost/piwik.js"
  {
  }

  /** A request without a query fetches http://localhost/piwik.js and relays a 200 with its body. */
  lemma LibraryFetch(options: Options, body: string, clock: Clock, get: Call -> Outcome)
    requires get(Call("http://localhost/piwik.js", options)) == Response(200, body)
    ensures var h := Handle("http://localhost/", "xyz", options, [], map[], "", clock, NoDate, get);
      && h.calls == [Call("http://localhost/piwik.js", options)]
      && h.reply == Reply(200, Some(body))
      && ("Content-Type", "application/javascript; charset=UTF-8") in h.responseHeaders
  {
    LocalLibraryUrl();
  }

  /** If-Modified-Since set to the current date with ";text" appended: 304 and no fetch. The
      date text has whole seconds, so it parses to at most a second before now. */
  lemma TrailingDataStripped(date: string, t: int, options: Options, clock: Clock,
                             parseDate: string -> Option<int>, get: Call -> Outcome)
    requires date != "" && ';' !in date && parseDate(date) == Some(t)
    requires t != 0 && clock.millis - 1000 < t <= clock.millis
    ensures var h := Handle("http://localhost/", "xyz", options, [],
                            map[FreshnessGate.ConditionalHeader := date + ";text"], "", clock, parseDate, get);
      h.calls == [] && h.reply == Reply(304, None) &&
      h.requestHeaders[FreshnessGate.ConditionalHeader] == date
  {
    FreshnessGate.TrailingDataIgnored(date, "text", clock.millis, parseDate);
    Js.IndexOfSeparator(date, ';', "text");
    assert (date + ";text")[..|date|] == date;
  }

  /** If-Modified-Since ten days old (its seconds truncated): the gate lets the fetch through. */
  lemma TenDayOldHeaderFetches(date: string, t: int, options: Options, clock: Clock,
                               parseDate: string -> Option<int>, get: Call -> Outcome)
    requires parseDate(FreshnessGate.StripTrailingData(date)) == Some(t) && t <= clock.millis - 864000000
    ensures var h := Handle("http://localhost/", "xyz", options, [],
                            map[FreshnessGate.ConditionalHeader := date], "", clock, parseDate, get);
      h.calls == [Call("http://localhost/piwik.js", options)] &&
      h.reply == MapOutcome(get(h.calls[0]))
  {
    LocalLibraryUrl();
  }

  /** An upstream 404 is relayed as a bare 404 and a transport error as 500 with its text, on
      either path. */
  lemma UpstreamFailures(piwikUrl: string, query: Query, options: Options, clock: Clock, text: string)
    ensures var h := Handle(piwikUrl, "xyz", options, query, map[], "127.0.0.1", clock, NoDate,
                            (c: Call) => Response(404, "Not Found"));
      h.reply == Reply(404, None)
    ensures var h := Handle(piwikUrl, "xyz", options, query, map[], "127.0.0.1", clock, NoDate,
                            (c: Call) => TransportError(text));
      h.reply == Reply(500, Some(text))
  {
  }

  /** Sequential tracking requests each carry their own User-Agent, whatever an earlier request
      left in the shared options. */
  lemma EachBeaconCarriesItsOwnUserAgent(options: Options, query: Query, ua1: string, ua2: string,
                                         clock: Clock, get: Call -> Outcome)
    requires query != [] && ua1 != "" && ua2 != ""
    ensures var first := Handle("http://localhost/", "xyz", options, query, map["user-agent" := ua1],
                                "127.0.0.1", clock, NoDate, get);
      var second := Handle("http://localhost/", "xyz", first.options, query, map["user-agent" := ua2],
                           "127.0.0.1", clock, NoDate, get);
      first.calls[0].options.headers.value[UserAgent] == ua1 &&
      second.calls[0].options.headers.value[UserAgent] == ua2
  {
  }

  /** Construction and invocation errors, as a caller sees them. */
  method MisuseIsRejected(clock: Clock, get: Call -> Outcome)
    returns (noArguments: Result<Proxy, string>, noUrl: Result<Proxy, string>, noToken: Result<Proxy, string>,
             plain: Result<Proxy, string>, withOptions: Result<Proxy, string>,
             noRequest: Result<seq<Call>, string>)
    ensures noArguments == Failure(UrlMissing) && noUrl == Failure(UrlMissing) && noToken == Failure(TokenMissing)
    ensures plain.Success? && plain.value.piwikUrl == "http://example.com/piwik.php"
    ensures plain.value.tokenAuth == "xyz" && plain.value.options == Options(map[], None)
    ensures withOptions.Success? && withOptions.value.piwikUrl == "http://example.com/piwik.php"
    ensures withOptions.value.tokenAuth == "xyz" && withOptions.value.options.settings == map["key" := "value"]
    ensures noRequest == Failure(ArgumentsMissing)
  {
    noArguments := Proxy.Create(Js.Undefined, Js.Undefined, None);
    noUrl := Proxy.Create(Js.Null, Js.Undefined, None);
    noToken := Proxy.Create(Js.Str("piwikUrl"), Js.Null, None);
    plain := Proxy.Create(Js.Str("http://example.com/piwik.php"), Js.Str("xyz"), None);
    var piwik := plain.value;
    withOptions := Proxy.Create(Js.Str("http://example.com/piwik.php"), Js.Str("xyz"),
                                Some(Options(map["key" := "value"], None)));
    noRequest := piwik.Process(null, null, clock, NoDate, get);
  }

  /** The tracking request of the suite, end to end through `process`. */
  method TrackingRequest(clock: Clock, get: Call -> Outcome)
    returns (url: string, headers: seq<(string, string)>, replies: nat)
    ensures url == "http://localhost/piwik.php?cip=127.0.0.1&token_auth=xyz&idsite=1&rec=1&"
    ensures headers == [("Content-Type", "image/gif")] && replies == 1
  {
    var r := Proxy.Create(Js.Str("http://localhost/"), Js.Str("xyz"), None);
    var piwik := r.value;
    var req := new Request(Some([("idsite", "1"), ("rec", "1")]), None, None, Some("127.0.0.1"));
    var res := new Response();
    var outcome := piwik.Process(req, res, clock, NoDate, get);
    ExactTrackingUrl();
    assert outcome.Success? && |outcome.value| == 1;
    assert outcome.value[0].url == "http://localhost/piwik.php?cip=127.0.0.1&token_auth=xyz&idsite=1&rec=1&";
    assert res.headers == [("Content-Type", "image/gif")] && |res.sent| == 1;
    url, headers, replies := outcome.value[0].url, res.headers, |res.sent|;
  }
}

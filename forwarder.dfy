/**
 * The forwarder of index.js: the outbound URL and options for either path and the mapping of the
 * upstream outcome onto the reply to the caller.
 */
module Forwarder {
  import opened Wrappers
  import Js
  import opened UriComponent

  const LibraryFile: string := "piwik.js"
  const TrackingEndpoint: string := "piwik.php"
  const UserAgent: string := "User-Agent"
  const AcceptLanguage: string := "Accept-Language"

  /** The inbound query in the order the runtime enumerates its own keys. */
  type Query = seq<(string, string)>

  /** The transport options bag: opaque settings and the optional `headers` object. */
  datatype Options = Options(settings: map<string, string>, headers: Option<map<string, string>>)

  /** One outbound GET. */
  datatype Call = Call(url: string, options: Options)

  /** What the transport reports back to the callback. */
  datatype Outcome = TransportError(text: string) | Response(status: int, body: string)

  /** What `res.send` is called with: a status and, possibly, a body. */
  datatype Reply = Reply(status: int, body: Option<string>)

  // ----- library path -----

  /** The response headers set before the library fetch, in order. */
  function LibraryHeaders(utcNow: string): (r: seq<(string, string)>)
    ensures |r| == 3 && r[0] == ("Last-Modified", utcNow)
    ensures r[1] == ("Content-Type", "application/javascript; charset=UTF-8") && r[2] == ("Vary", "Accept-Encoding")
  {
    [("Last-Modified", utcNow),
     ("Content-Type", "application/javascript; charset=UTF-8"),
     ("Vary", "Accept-Encoding")]
  }

  const TrackingHeaders: seq<(string, string)> := [("Content-Type", "image/gif")]

  // ----- tracking path -----

  /** `req.ip || req._remoteAddress`, as it reads once concatenated into a string. */
  function ClientAddress(ip: Option<string>, remoteAddress: Option<string>): (cip: string)
    ensures ip.Some? && ip.value != "" ==> cip == ip.value
    ensures (ip.None? || ip.value == "") && remoteAddress.Some? ==> cip == remoteAddress.value
    ensures (ip.None? || ip.value == "") && remoteAddress.None? ==> cip == "undefined"
  {
    if ip.Some? && ip.value != "" then ip.value
    else match remoteAddress
      case Some(a) => a
      case None => "undefined"
  }

  /** One `key=value&` segment of a query string. */
  function Segment(key: string, value: string): string {
    key + "=" + value + "&"
  }

  /** One forwarded entry: the key as is, the value through encodeURIComponent. */
  function Pair(key: string, value: string): string {
    Segment(key, EncodeURIComponent(value))
  }

  function QueryPairs(q: Query): string {
    if q == [] then "" else Pair(q[0].0, q[0].1) + QueryPairs(q[1..])
  }

  /** The query of the tracking request: the client address, the token, then every entry. */
  function TrackingQuery(cip: string, tokenAuth: string, q: Query): string {
    Segment("cip", cip) + Segment("token_auth", tokenAuth) + QueryPairs(q)
  }

  function TrackingUrl(piwikUrl: string, cip: string, tokenAuth: string, q: Query): (url: string)
    ensures piwikUrl + TrackingEndpoint + "?" <= url
  {
    piwikUrl + TrackingEndpoint + "?" + TrackingQuery(cip, tokenAuth, q)
  }

  lemma {:induction false} QueryPairsAppend(q: Query, key: string, value: string)
    ensures QueryPairs(q + [(key, value)]) == QueryPairs(q) + Pair(key, value)
  {
    if q == [] {
      assert QueryPairs([(key, value)]) == Pair(key, value) + QueryPairs([]);
    } else {
      assert (q + [(key, value)])[1..] == q[1..] + [(key, value)];
      QueryPairsAppend(q[1..], key, value);
    }
  }

  lemma AppendAssoc(a: string, b: string, c: string)
    ensures a + (b + c) == (a + b) + c
  {
  }

  lemma TrackingUrlAppend(piwikUrl: string, cip: string, tokenAuth: string, q: Query, key: string, value: string)
    ensures TrackingUrl(piwikUrl, cip, tokenAuth, q + [(key, value)])
         == TrackingUrl(piwikUrl, cip, tokenAuth, q) + (key + "=" + EncodeURIComponent(value) + "&")
  {
    var entry := Pair(key, value);
    assert entry == key + "=" + EncodeURIComponent(value) + "&";
    QueryPairsAppend(q, key, value);
    var head := Segment("cip", cip) + Segment("token_auth", tokenAuth);
    var prefix := piwikUrl + TrackingEndpoint + "?";
    var query := TrackingQuery(cip, tokenAuth, q);
    AppendAssoc(head, QueryPairs(q), entry);
    assert TrackingQuery(cip, tokenAuth, q + [(key, value)]) == query + entry;
    AppendAssoc(prefix, query, entry);
  }

  /** The literal prefix index.js starts the URL with is the tracking URL with no entries. */
  lemma TrackingPrefix(piwikUrl: string, cip: string, tokenAuth: string)
    ensures piwikUrl + "piwik.php?cip=" + cip + "&token_auth=" + tokenAuth + "&"
         == TrackingUrl(piwikUrl, cip, tokenAuth, [])
  {
    assert "piwik.php?cip=" == TrackingEndpoint + "?" + "cip" + "=";
    assert "&token_auth=" == "&" + "token_auth" + "=";
  }

  /** The loop of index.js that builds the tracking URL one own query entry at a time. */
  method BuildTrackingUrl(piwikUrl: string, cip: string, tokenAuth: string, q: Query)
    returns (url: string)
    ensures url == TrackingUrl(piwikUrl, cip, tokenAuth, q)
  {
    url := piwikUrl + "piwik.php?cip=" + cip + "&token_auth=" + tokenAuth + "&";
    TrackingPrefix(piwikUrl, cip, tokenAuth);
    var i := 0;
    while i < |q|
      invariant 0 <= i <= |q|
      invariant url == TrackingUrl(piwikUrl, cip, tokenAuth, q[..i])
    {
      var (key, value) := q[i];
      assert q[..i + 1] == q[..i] + [(key, value)];
      TrackingUrlAppend(piwikUrl, cip, tokenAuth, q[..i], key, value);
      url := url + (key + "=" + EncodeURIComponent(value) + "&");
      i := i + 1;
    }
    assert q[..i] == q;
  }

  /** The tracking URL always ends in '&' and starts with the configured base. */
  lemma TrackingUrlShape(piwikUrl: string, cip: string, tokenAuth: string, q: Query)
    ensures var url := TrackingUrl(piwikUrl, cip, tokenAuth, q);
      url[..|piwikUrl|] == piwikUrl && url[|url| - 1] == '&'
  {
    if q != [] {
      QueryPairsEndsWithAmpersand(q);
    }
  }

  lemma {:induction false} QueryPairsEndsWithAmpersand(q: Query)
    requires q != []
    ensures |QueryPairs(q)| > 0 && QueryPairs(q)[|QueryPairs(q)| - 1] == '&'
  {
    if q[1..] != [] {
      QueryPairsEndsWithAmpersand(q[1..]);
    }
  }

  /** The user-agent and accept-language overrides, set on the options' headers; every other
      header and every other option stays as it was. */
  function WithTrackingHeaders(o: Options, userAgent: string, acceptLanguage: string): (r: Options)
    ensures r.settings == o.settings && r.headers.Some?
    ensures UserAgent in r.headers.value && r.headers.value[UserAgent] == userAgent
    ensures AcceptLanguage in r.headers.value && r.headers.value[AcceptLanguage] == acceptLanguage
    ensures forall k :: k in r.headers.value <==> k in o.headers.GetOr(map[]) || k == UserAgent || k == AcceptLanguage
    ensures forall k :: k in o.headers.GetOr(map[]) && k != UserAgent && k != AcceptLanguage ==>
      r.headers.value[k] == o.headers.GetOr(map[])[k]
  {
    var h := o.headers.GetOr(map[]);
    Options(o.settings, Some(h[UserAgent := userAgent][AcceptLanguage := acceptLanguage]))
  }

  /** A later injection overwrites an earlier one completely: the options carry only the
      last request's values, whichever values an earlier request left behind. */
  lemma LastInjectionWins(o: Options, ua1: string, al1: string, ua2: string, al2: string)
    ensures WithTrackingHeaders(WithTrackingHeaders(o, ua1, al1), ua2, al2) == WithTrackingHeaders(o, ua2, al2)
  {
    var h := o.headers.GetOr(map[]);
    assert h[UserAgent := ua1][AcceptLanguage := al1][UserAgent := ua2][AcceptLanguage := al2]
        == h[UserAgent := ua2][AcceptLanguage := al2];
  }

  // ----- response mapping -----

  /** The callback of both `request.get` calls: a transport error gives 500 with its text, a
      status of 300 or more passes through without a body, anything else with the body. */
  function MapOutcome(o: Outcome): (r: Reply)
    ensures o.TransportError? ==> r.status == 500 && r.body == Some(o.text)
    ensures o.Response? ==> r.status == o.status
    ensures r.body.None? <==> o.Response? && o.status >= 300
    ensures o.Response? && r.body.Some? ==> r.body.value == o.body
  {
    match o
    case TransportError(text) => Reply(500, Some(text))
    case Response(status, body) => if status >= 300 then Reply(status, None) else Reply(status, Some(body))
  }

  // ----- how the collection server reads the tracking query -----

  /** A query-string segment split at its first '='. */
  function SplitPair(p: string): (string, string) {
    var j := Js.IndexOf(p, '=');
    if j < 0 then (p, "") else (p[..j], p[j + 1..])
  }

  /** A query string split at each '&' into raw (key, value) segments; a final '&' adds none. */
  function ParseQuery(s: string): seq<(string, string)>
    decreases |s|
  {
    if s == [] then []
    else
      var i := Js.IndexOf(s, '&');
      if i < 0 then [SplitPair(s)] else [SplitPair(s[..i])] + ParseQuery(s[i + 1..])
  }

  predicate Plain(s: string) { '&' !in s && '=' !in s }

  lemma ParseSegment(key: string, value: string, rest: string)
    requires Plain(key) && Plain(value)
    ensures ParseQuery(Segment(key, value) + rest) == [(key, value)] + ParseQuery(rest)
  {
    var seg := key + "=" + value;
    assert '&' !in seg by {
      assert forall i :: 0 <= i < |seg| ==> seg[i] == '&' ==> (i < |key| && key[i] == '&') || (i > |key| && value[i - |key| - 1] == '&');
    }
    Js.IndexOfSeparator(seg, '&', rest);
    Js.IndexOfSeparator(key, '=', value);
    var s := seg + "&" + rest;
    assert s == Segment(key, value) + rest;
    assert s[..|seg|] == seg && s[|seg| + 1..] == rest;
    assert seg[..|key|] == key && seg[|key| + 1..] == value;
  }

  lemma {:induction false} ParseQueryPairs(q: Query)
    requires forall i :: 0 <= i < |q| ==> Plain(q[i].0)
    ensures |ParseQuery(QueryPairs(q))| == |q|
    ensures forall i :: 0 <= i < |q| ==> ParseQuery(QueryPairs(q))[i] == (q[i].0, EncodeURIComponent(q[i].1))
  {
    if q != [] {
      assert forall i :: 0 <= i < |q[1..]| ==> Plain(q[1..][i].0) by {
        forall i | 0 <= i < |q[1..]| ensures Plain(q[1..][i].0) { assert q[1..][i] == q[i + 1]; }
      }
      var tail := q[1..];
      ParseQueryPairs(tail);
      var (key, value) := q[0];
      var encoded := EncodeURIComponent(value);
      EncodeHasNoSeparators(value);
      ParseSegment(key, encoded, QueryPairs(tail));
      var parsed := ParseQuery(QueryPairs(q));
      var rest := ParseQuery(QueryPairs(tail));
      assert parsed == [(key, encoded)] + rest;
      forall i | 0 <= i < |q|
        ensures parsed[i] == (q[i].0, EncodeURIComponent(q[i].1))
      {
        if i > 0 {
          assert parsed[i] == rest[i - 1] && tail[i - 1] == q[i];
        }
      }
    }
  }

  lemma ParseTrackingQuery(cip: string, tokenAuth: string, q: Query)
    requires Plain(cip) && Plain(tokenAuth)
    ensures ParseQuery(TrackingQuery(cip, tokenAuth, q))
         == [("cip", cip)] + ([("token_auth", tokenAuth)] + ParseQuery(QueryPairs(q)))
  {
    var rest := QueryPairs(q);
    var tail := Segment("token_auth", tokenAuth) + rest;
    var whole := TrackingQuery(cip, tokenAuth, q);
    assert Plain("cip") && Plain("token_auth");
    assert whole == Segment("cip", cip) + tail;
    ParseSegment("token_auth", tokenAuth, rest);
    ParseSegment("cip", cip, tail);
  }

  /** The collection server reads back exactly what was forwarded: the client address, the
      token, then every entry in order with its original value once decoded. */
  lemma TrackingQueryRoundTrip(cip: string, tokenAuth: string, q: Query)
    requires Plain(cip) && Plain(tokenAuth)
    requires forall i :: 0 <= i < |q| ==> Plain(q[i].0)
    ensures var parsed := ParseQuery(TrackingQuery(cip, tokenAuth, q));
      |parsed| == |q| + 2 && parsed[0] == ("cip", cip) && parsed[1] == ("token_auth", tokenAuth) &&
      forall i :: 0 <= i < |q| ==>
        parsed[i + 2].0 == q[i].0 && DecodeURIComponent(parsed[i + 2].1) == Some(q[i].1)
  {
    ParseTrackingQuery(cip, tokenAuth, q);
    ParseQueryPairs(q);
    var parsed := ParseQuery(TrackingQuery(cip, tokenAuth, q));
    forall i | 0 <= i < |q|
      ensures parsed[i + 2].0 == q[i].0 && DecodeURIComponent(parsed[i + 2].1) == Some(q[i].1)
    {
      assert parsed[i + 2] == (q[i].0, EncodeURIComponent(q[i].1));
      DecodeEncode(q[i].1);
    }
  }

  /** Keys go out unencoded (index.js:88), so a key holding '&' splits into two upstream
      parameters, the second of them one the client chose. */
  lemma {:induction false} UnencodedKeyAddsParameter(before: string, name: string, value: string)
    requires Plain(before) && Plain(name)
    ensures ParseQuery(QueryPairs([(before + "&" + name, value)]))
         == [(before, ""), (name, EncodeURIComponent(value))]
  {
    var encoded := EncodeURIComponent(value);
    EncodeHasNoSeparators(value);
    var rest := Segment(name, encoded) + "";
    var s := QueryPairs([(before + "&" + name, value)]);
    assert s == Pair(before + "&" + name, value) + QueryPairs([]);
    assert s == before + "&" + rest;
    ParseAtSeparator(before, rest);
    ParseSegment(name, encoded, "");
    assert SplitPair(before) == (before, "");
  }

  /** The instance `x&cip=1`: one query entry reaches upstream as `x` and a client-chosen `cip`. */
  lemma InjectedClientAddress()
    ensures ParseQuery(QueryPairs([("x&cip", "1")])) == [("x", ""), ("cip", "1")]
  {
    assert "x&cip" == "x" + "&" + "cip";
    assert Plain("x") && Plain("cip");
    UnencodedKeyAddsParameter("x", "cip", "1");
    UriComponent.EncodeIdentityIff("1");
  }

  lemma ParseAtSeparator(x: string, rest: string)
    requires '&' !in x
    ensures ParseQuery(x + "&" + rest) == [SplitPair(x)] + ParseQuery(rest)
  {
    var s := x + "&" + rest;
    Js.IndexOfSeparator(x, '&', rest);
    assert s[..|x|] == x && s[|x| + 1..] == rest;
  }

  /** Even a key free of separators can repeat a parameter of the proxy's own: the entry
      `cip` reaches the collection server as a second client address. */
  lemma KeyRepeatsClientAddress(cip: string, tokenAuth: string, value: string)
    requires Plain(cip) && Plain(tokenAuth)
    ensures var parsed := ParseQuery(TrackingQuery(cip, tokenAuth, [("cip", value)]));
      |parsed| == 3 && parsed[0] == ("cip", cip) && parsed[2].0 == "cip" &&
      DecodeURIComponent(parsed[2].1) == Some(value)
  {
    assert Plain("cip");
    TrackingQueryRoundTrip(cip, tokenAuth, [("cip", value)]);
  }
}
